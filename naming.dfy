/**
 * The dispatch and output naming of `process_image` (main.py:59-101): which
 * operation tag is recognised, which transform its branch applies, and the
 * path under `static/` that the branch writes and returns. Decoding and
 * writing the image are left to OpenCV and are not modelled; whether the
 * decode succeeded is a parameter of `ProcessImage`.
 */
module Naming {
  import opened Wrappers
  import opened UInt8
  import opened Effects

  /** The ten operation tags `process_image` recognises, in the order of its if/elif chain. */
  datatype Operation =
    | CGray | CWebp | CJpg | CPng | Edge | Sepia | Bw | DuotoneOp | MonochromeOp | CyanotypeOp

  /** The form value that selects each operation. */
  function Tag(op: Operation): (tag: string)
    ensures tag != ""
    ensures forall i :: 0 <= i < |tag| ==> 'a' <= tag[i] <= 'z'
  {
    match op
    case CGray => "cgray"
    case CWebp => "cwebp"
    case CJpg => "cjpg"
    case CPng => "cpng"
    case Edge => "edge"
    case Sepia => "sepia"
    case Bw => "bw"
    case DuotoneOp => "duotone"
    case MonochromeOp => "monochrome"
    case CyanotypeOp => "cyanotype"
  }

  /** The if/elif chain of main.py:62-100: the first tag equal to `operation`, if any. */
  function ParseOperation(operation: string): (r: Option<Operation>)
    ensures r.Some? ==> Tag(r.value) == operation
    ensures r.None? <==> forall op :: Tag(op) != operation
  {
    if operation == "cgray" then Some(CGray)
    else if operation == "cwebp" then Some(CWebp)
    else if operation == "cjpg" then Some(CJpg)
    else if operation == "cpng" then Some(CPng)
    else if operation == "edge" then Some(Edge)
    else if operation == "sepia" then Some(Sepia)
    else if operation == "bw" then Some(Bw)
    else if operation == "duotone" then Some(DuotoneOp)
    else if operation == "monochrome" then Some(MonochromeOp)
    else if operation == "cyanotype" then Some(CyanotypeOp)
    else None
  }

  /** Every operation is selected by its own tag and by no other. */
  lemma ParseTag(op: Operation)
    ensures ParseOperation(Tag(op)) == Some(op)
  {
  }

  /** Different operations are selected by different tags. */
  lemma TagInjective(a: Operation, b: Operation)
    requires Tag(a) == Tag(b)
    ensures a == b
  {
    ParseTag(a);
    ParseTag(b);
  }

  /** The directory every output is written under. */
  const OutputDir: string := "static/"

  /**
   * `filename.split('.')[0]`: the text before the FIRST '.', or the whole
   * name when it has none.
   */
  function Stem(filename: string): (r: string)
    ensures '.' !in r
    ensures r <= filename
    ensures |r| < |filename| ==> filename[|r|] == '.'
  {
    if filename == [] || filename[0] == '.' then []
    else [filename[0]] + Stem(filename[1..])
  }

  /** Only one prefix of a name is free of '.' and followed by a '.' or the end. */
  lemma StemUnique(filename: string, stem: string)
    requires '.' !in stem && stem <= filename
    requires |stem| == |filename| || filename[|stem|] == '.'
    ensures Stem(filename) == stem
  {
  }

  /** What the nine renaming branches append to the stem. */
  function Suffix(op: Operation): (suffix: string)
    requires op != CGray
    ensures op == CWebp <==> suffix == ".webp"
    ensures op == CPng <==> suffix == ".png"
    ensures op != CWebp && op != CPng ==> |suffix| >= 4 && suffix[|suffix| - 4..] == ".jpg"
  {
    match op
    case CWebp => ".webp"
    case CJpg => ".jpg"
    case CPng => ".png"
    case Edge => "_edges.jpg"
    case Sepia => "_sepia.jpg"
    case Bw => "_bw.jpg"
    case DuotoneOp => "_duotone.jpg"
    case MonochromeOp => "_monochrome.jpg"
    case CyanotypeOp => "_cyanotype.jpg"
  }

  /** The value `process_image` assigns to `new_filename` and returns (main.py:60-101). */
  function OutputPath(filename: string, operation: string): (r: string)
    ensures r == "" <==> ParseOperation(operation).None?
    ensures r != "" ==> OutputDir <= r
  {
    match ParseOperation(operation)
    case None => ""
    case Some(CGray) => OutputDir + filename
    case Some(op) => OutputDir + Stem(filename) + Suffix(op)
  }

  /** `cgray` keeps the uploaded name, extension included. */
  lemma GrayKeepsName(filename: string)
    ensures OutputPath(filename, Tag(CGray)) == OutputDir + filename
  {
  }

  /**
   * Every other tag writes `static/` + the text before the first '.' + its
   * suffix; the stem is the longest '.'-free prefix of the name.
   */
  lemma RenamedOutput(filename: string, op: Operation, stem: string)
    requires op != CGray
    requires '.' !in stem && stem <= filename
    requires |stem| == |filename| || filename[|stem|] == '.'
    ensures OutputPath(filename, Tag(op)) == OutputDir + stem + Suffix(op)
  {
    StemUnique(filename, stem);
    ParseTag(op);
  }

  /** For one upload, the nine renaming tags write nine different files. */
  lemma RenamedOutputsDistinct(filename: string, op1: Operation, op2: Operation)
    requires op1 != CGray && op2 != CGray && op1 != op2
    ensures OutputPath(filename, Tag(op1)) != OutputPath(filename, Tag(op2))
  {
    ParseTag(op1);
    ParseTag(op2);
    var prefix := OutputDir + Stem(filename);
    var p1, p2 := prefix + Suffix(op1), prefix + Suffix(op2);
    assert p1[|prefix|..] == Suffix(op1);
    assert p2[|prefix|..] == Suffix(op2);
  }

  /** `cgray` and `cjpg` on `x.jpg` write the same file. */
  lemma GrayAndJpgShareOutput()
    ensures OutputPath("x.jpg", "cgray") == OutputPath("x.jpg", "cjpg") == "static/x.jpg"
  {
    RenamedOutput("x.jpg", CJpg, "x");
  }

  /** `cwebp` on `a.png` and on `a.jpg` write the same file. */
  lemma WebpOutputsShared()
    ensures OutputPath("a.png", "cwebp") == OutputPath("a.jpg", "cwebp") == "static/a.webp"
  {
    RenamedOutput("a.png", CWebp, "a");
    RenamedOutput("a.jpg", CWebp, "a");
  }

  /** The stem stops at the first '.': `cpng` on `a.b.png` writes `static/a.png`. */
  lemma StemStopsAtFirstDot()
    ensures OutputPath("a.b.png", "cpng") == "static/a.png"
  {
    RenamedOutput("a.b.png", CPng, "a");
  }

  /** Why `process_image` can fail: `cv2.imread` gave no image and the branch used it. */
  datatype ProcessError = DecodeFailed

  /**
   * `process_image(filename, operation)` (main.py:59-101) with the file
   * system abstracted: `decoded` says whether `cv2.imread` produced an
   * image. When it did not, every recognised branch raises as soon as it
   * uses the missing image, while an unknown tag never touches the image
   * and returns the empty string.
   */
  function ProcessImage(filename: string, operation: string, decoded: bool): (r: Result<string, ProcessError>)
    ensures r.Err? <==> !decoded && ParseOperation(operation).Some?
    ensures r.Ok? ==> r.value == OutputPath(filename, operation)
  {
    if !decoded && ParseOperation(operation).Some? then Err(DecodeFailed)
    else Ok(OutputPath(filename, operation))
  }

  /**
   * An operation outside the ten tags takes no branch: whether or not the
   * image decoded, `process_image` returns the empty string.
   */
  lemma UnknownOperationIsNoOp(filename: string, operation: string, decoded: bool)
    requires forall op :: Tag(op) != operation
    ensures OutputPath(filename, operation) == ""
    ensures ProcessImage(filename, operation, decoded) == Ok("")
  {
  }

  /** The transform each branch applies before writing. */
  datatype Transform =
    | Grayscale
    | Unchanged
    | CannyEdges(low: int, high: int)
    | SepiaTone
    | DuotoneTint(color1: Color, color2: Color)
    | MonochromeTint(hue: Byte)
    | CyanotypeTint

  /** The colours the `duotone` branch passes (main.py:90). */
  const DuotoneColor1: Color := Color(255, 0, 0)
  const DuotoneColor2: Color := Color(0, 255, 255)

  /** The hue the `monochrome` branch passes (main.py:94). */
  const MonochromeHue: Byte := 128

  /** The branch bodies of main.py:62-100, the constants they pass included. */
  function TransformOf(op: Operation): (t: Transform)
    ensures t == Grayscale <==> op == CGray || op == Bw
    ensures t == Unchanged <==> op == CWebp || op == CJpg || op == CPng
    ensures t.CannyEdges? <==> op == Edge
    ensures t.DuotoneTint? <==> op == DuotoneOp
    ensures t.MonochromeTint? <==> op == MonochromeOp
    ensures t.CyanotypeTint? <==> op == CyanotypeOp
    ensures op == Edge ==> t == CannyEdges(100, 200)
    ensures op == DuotoneOp ==> t == DuotoneTint(DuotoneColor1, DuotoneColor2)
    ensures op == MonochromeOp ==> t == MonochromeTint(128)
  {
    match op
    case CGray => Grayscale
    case CWebp => Unchanged
    case CJpg => Unchanged
    case CPng => Unchanged
    case Edge => CannyEdges(100, 200)
    case Sepia => SepiaTone
    case Bw => Grayscale
    case DuotoneOp => DuotoneTint(DuotoneColor1, DuotoneColor2)
    case MonochromeOp => MonochromeTint(MonochromeHue)
    case CyanotypeOp => CyanotypeTint
  }

  /**
   * With the colours `process_image` passes to `duotone`, channels 1 and 2
   * of every output pixel are equal.
   */
  lemma ProcessDuotoneChannels(g: Byte)
    ensures DuotoneAt(g, DuotoneColor1, DuotoneColor2, 1) == DuotoneAt(g, DuotoneColor1, DuotoneColor2, 2)
  {
  }

  /** With the same colours a black pixel (gray level 0) comes out as the second colour (0, 255, 255). */
  lemma ProcessDuotoneBlack(k: nat)
    requires k < 3
    ensures DuotoneAt(0, DuotoneColor1, DuotoneColor2, k) == DuotoneColor2.At(k)
  {
  }

  /**
   * With the same colours a white pixel (gray level 255) comes out as
   * (1, 254, 254), not as the first colour (255, 0, 0).
   */
  lemma ProcessDuotoneWhite()
    ensures DuotoneAt(255, DuotoneColor1, DuotoneColor2, 0) == 1
    ensures DuotoneAt(255, DuotoneColor1, DuotoneColor2, 1) == 254
    ensures DuotoneAt(255, DuotoneColor1, DuotoneColor2, 2) == 254
  {
  }

  /** The corrected blend sends a white pixel to the first colour and a black one to the second. */
  lemma ProcessDuotoneNormalized(k: nat)
    requires k < 3
    ensures NormalizedBlend(255, DuotoneColor1.At(k), DuotoneColor2.At(k)) == DuotoneColor1.At(k)
    ensures NormalizedBlend(0, DuotoneColor1.At(k), DuotoneColor2.At(k)) == DuotoneColor2.At(k)
  {
  }

  /**
   * The `duotone` branch (main.py:89-90): `duotone` called with the colours
   * `TransformOf` records. Channels 1 and 2 of the result agree at every pixel.
   */
  method DuotoneBranch(img: array3<Byte>, gray: array2<Byte>) returns (out: array3<Byte>)
    requires img.Length2 >= 3
    requires gray.Length0 == img.Length0 && gray.Length1 == img.Length1
    ensures fresh(out)
    ensures out.Length0 == img.Length0 && out.Length1 == img.Length1 && out.Length2 == img.Length2
    ensures forall y, x, k :: 0 <= y < out.Length0 && 0 <= x < out.Length1 && 0 <= k < out.Length2 ==>
              out[y, x, k] == DuotoneAt(gray[y, x], DuotoneColor1, DuotoneColor2, k)
    ensures forall y, x :: 0 <= y < out.Length0 && 0 <= x < out.Length1 ==> out[y, x, 1] == out[y, x, 2]
    ensures forall y, x :: 0 <= y < out.Length0 && 0 <= x < out.Length1 && gray[y, x] == 0 ==>
              out[y, x, 0] == 0 && out[y, x, 1] == 255
  {
    var t := TransformOf(DuotoneOp);
    assert t.color1 == DuotoneColor1 && t.color2 == DuotoneColor2;
    out := Effects.Duotone(img, gray, t.color1, t.color2);
    forall y, x | 0 <= y < out.Length0 && 0 <= x < out.Length1
      ensures out[y, x, 1] == out[y, x, 2]
    {
      var g := gray[y, x];
      assert out[y, x, 1] == Blend(g, DuotoneColor1.At(1), DuotoneColor2.At(1));
      assert out[y, x, 2] == Blend(g, DuotoneColor1.At(2), DuotoneColor2.At(2));
      ProcessDuotoneChannels(g);
    }
    forall y, x | 0 <= y < out.Length0 && 0 <= x < out.Length1 && gray[y, x] == 0
      ensures out[y, x, 0] == 0 && out[y, x, 1] == 255
    {
      assert out[y, x, 0] == Blend(0, DuotoneColor1.At(0), DuotoneColor2.At(0));
      assert out[y, x, 1] == Blend(0, DuotoneColor1.At(1), DuotoneColor2.At(1));
      ProcessDuotoneBlack(0);
      ProcessDuotoneBlack(1);
    }
  }

  /**
   * The `monochrome` branch (main.py:93-94): `monochrome` called with the
   * hue `TransformOf` records, so channel 0 is 128 at every pixel.
   */
  method MonochromeBranch(img: array3<Byte>, gray: array2<Byte>) returns (out: array3<Byte>)
    requires img.Length2 >= 3
    requires gray.Length0 == img.Length0 && gray.Length1 == img.Length1
    ensures fresh(out)
    ensures out.Length0 == img.Length0 && out.Length1 == img.Length1 && out.Length2 == img.Length2
    ensures forall y, x :: 0 <= y < out.Length0 && 0 <= x < out.Length1 ==>
              out[y, x, 0] == 128 && out[y, x, 1] == gray[y, x] && out[y, x, 2] == gray[y, x]
  {
    var t := TransformOf(MonochromeOp);
    out := Effects.Monochrome(img, gray, t.hue);
  }
}

/**
 * The three integer tints of main.py: `duotone` (main.py:31-39),
 * `monochrome` (main.py:41-49) and `cyanotype` (main.py:51-57).
 *
 * An image is a height x width x channels `uint8` array; each tint allocates
 * a zero array of the same shape (`np.zeros_like`) and fills channel planes
 * 0, 1 and 2. The gray plane that `duotone` and `monochrome` obtain from
 * OpenCV's BGR-to-gray conversion is passed in, as a height x width array.
 */
module Effects {
  import opened UInt8

  /** A colour as the 3-tuple of channel values `duotone` receives. */
  datatype Color = Color(ch0: Byte, ch1: Byte, ch2: Byte)
  {
    function At(k: nat): Byte
      requires k < 3
    {
      if k == 0 then ch0 else if k == 1 then ch1 else ch2
    }
  }

  /** The value channel k of a duotone pixel of gray level g must hold: the blend taken modulo 256. */
  function Blend(g: Byte, c1: Byte, c2: Byte): Byte
  {
    Wrap(g * c1 + (1 - g) * c2)
  }

  /**
   * One sample of `gray_img * color1[k] + (1 - gray_img) * color2[k]` as
   * NumPy evaluates it: every operation on `uint8`.
   */
  function DuotoneSample(g: Byte, c1: Byte, c2: Byte): (r: Byte)
    ensures r == Blend(g, c1, c2)
  {
    WrapOfProduct(1 - g, c2);
    WrapOfSum(g * c1, (1 - g) * c2);
    Add8(Mul8(g, c1), Mul8(Sub8(1, g), c2))
  }

  /** A gray level of 0 gives exactly the second colour. */
  lemma BlendAtBlack(c1: Byte, c2: Byte)
    ensures Blend(0, c1, c2) == c2
  {
  }

  /** A gray level of 1 gives exactly the first colour. */
  lemma BlendAtOne(c1: Byte, c2: Byte)
    ensures Blend(1, c1, c2) == c1
  {
  }

  /** When both colours agree on a channel, that channel is constant whatever the gray level. */
  lemma BlendOfEqualColors(g: Byte, c: Byte)
    ensures Blend(g, c, c) == c
  {
  }

  /**
   * The blend `duotone` evidently means, with the gray level taken as a
   * weight out of 255: `(g * c1 + (255 - g) * c2) / 255`, rounded down.
   */
  function NormalizedBlend(g: Byte, c1: Byte, c2: Byte): (r: Byte)
    ensures g == 0 ==> r == c2
    ensures g == 255 ==> r == c1
    ensures c1 <= c2 ==> c1 <= r <= c2
    ensures c2 <= c1 ==> c2 <= r <= c1
  {
    var lo, hi := if c1 <= c2 then c1 else c2, if c1 <= c2 then c2 else c1;
    var sum := g * c1 + (255 - g) * c2;
    WeightedSumBounds(g, c1, c2, lo, hi);
    DivBounds(sum, lo, hi);
    sum / 255
  }

  lemma WeightedSumBounds(g: Byte, c1: Byte, c2: Byte, lo: Byte, hi: Byte)
    requires lo <= c1 <= hi && lo <= c2 <= hi
    ensures 255 * lo <= g * c1 + (255 - g) * c2 <= 255 * hi
  {
    ScaleMonotone(g, lo, c1);
    ScaleMonotone(g, c1, hi);
    ScaleMonotone(255 - g, lo, c2);
    ScaleMonotone(255 - g, c2, hi);
    assert g * lo + (255 - g) * lo == 255 * lo;
    assert g * hi + (255 - g) * hi == 255 * hi;
  }

  lemma ScaleMonotone(a: nat, b: int, c: int)
    requires b <= c
    ensures a * b <= a * c
  {
  }

  lemma DivBounds(sum: int, lo: Byte, hi: Byte)
    requires 255 * lo <= sum <= 255 * hi
    ensures lo <= sum / 255 <= hi
  {
  }

  /** Expected sample of a duotone output at channel k. */
  function DuotoneAt(g: Byte, color1: Color, color2: Color, k: nat): Byte
  {
    if k < 3 then Blend(g, color1.At(k), color2.At(k)) else 0
  }

  /** Expected sample of a monochrome output at channel k. */
  function MonochromeAt(g: Byte, hue: Byte, k: nat): Byte
  {
    if k == 0 then hue else if k < 3 then g else 0
  }

  /** Expected sample of a cyanotype output at channel k, given channel 0 of the source pixel. */
  function CyanotypeAt(src0: Byte, k: nat): Byte
  {
    if k == 0 then 255 else if k < 3 then 255 - src0 else 0
  }

  /** `duotone(img, color1, color2)` (main.py:31-39), with `gray` the gray plane of `img`. */
  method Duotone(img: array3<Byte>, gray: array2<Byte>, color1: Color, color2: Color) returns (out: array3<Byte>)
    requires img.Length2 >= 3
    requires gray.Length0 == img.Length0 && gray.Length1 == img.Length1
    ensures fresh(out)
    ensures out.Length0 == img.Length0 && out.Length1 == img.Length1 && out.Length2 == img.Length2
    ensures forall y, x, k :: 0 <= y < out.Length0 && 0 <= x < out.Length1 && 0 <= k < 3 ==>
              out[y, x, k] == Blend(gray[y, x], color1.At(k), color2.At(k))
    ensures forall y, x, k :: 0 <= y < out.Length0 && 0 <= x < out.Length1 && 3 <= k < out.Length2 ==>
              out[y, x, k] == 0
  {
    var h, w, c := img.Length0, img.Length1, img.Length2;
    out := new Byte[h, w, c]((_, _, _) => 0);
    var y := 0;
    while y < h
      invariant 0 <= y <= h
      invariant forall i, j, k :: 0 <= i < h && 0 <= j < w && 0 <= k < c ==>
                  out[i, j, k] == if i < y then DuotoneAt(gray[i, j], color1, color2, k) else 0
    {
      var x := 0;
      while x < w
        invariant 0 <= x <= w
        invariant forall i, j, k :: 0 <= i < h && 0 <= j < w && 0 <= k < c ==>
                    out[i, j, k] == if i < y || (i == y && j < x) then DuotoneAt(gray[i, j], color1, color2, k) else 0
      {
        var g := gray[y, x];
        out[y, x, 0] := DuotoneSample(g, color1.ch0, color2.ch0);
        out[y, x, 1] := DuotoneSample(g, color1.ch1, color2.ch1);
        out[y, x, 2] := DuotoneSample(g, color1.ch2, color2.ch2);
        x := x + 1;
      }
      y := y + 1;
    }
  }

  /** `monochrome(img, hue)` (main.py:41-49), with `gray` the gray plane of `img`. */
  method Monochrome(img: array3<Byte>, gray: array2<Byte>, hue: Byte) returns (out: array3<Byte>)
    requires img.Length2 >= 3
    requires gray.Length0 == img.Length0 && gray.Length1 == img.Length1
    ensures fresh(out)
    ensures out.Length0 == img.Length0 && out.Length1 == img.Length1 && out.Length2 == img.Length2
    ensures forall y, x :: 0 <= y < out.Length0 && 0 <= x < out.Length1 ==>
              out[y, x, 0] == hue && out[y, x, 1] == gray[y, x] && out[y, x, 2] == gray[y, x]
    ensures forall y, x, k :: 0 <= y < out.Length0 && 0 <= x < out.Length1 && 3 <= k < out.Length2 ==>
              out[y, x, k] == 0
  {
    var h, w, c := img.Length0, img.Length1, img.Length2;
    out := new Byte[h, w, c]((_, _, _) => 0);
    var y := 0;
    while y < h
      invariant 0 <= y <= h
      invariant forall i, j, k :: 0 <= i < h && 0 <= j < w && 0 <= k < c ==>
                  out[i, j, k] == if i < y then MonochromeAt(gray[i, j], hue, k) else 0
    {
      var x := 0;
      while x < w
        invariant 0 <= x <= w
        invariant forall i, j, k :: 0 <= i < h && 0 <= j < w && 0 <= k < c ==>
                    out[i, j, k] == if i < y || (i == y && j < x) then MonochromeAt(gray[i, j], hue, k) else 0
      {
        out[y, x, 0] := hue;
        out[y, x, 1] := gray[y, x];
        out[y, x, 2] := gray[y, x];
        x := x + 1;
      }
      y := y + 1;
    }
  }

  /** `cyanotype(img)` (main.py:51-57). */
  method Cyanotype(img: array3<Byte>) returns (out: array3<Byte>)
    requires img.Length2 >= 3
    ensures fresh(out)
    ensures out.Length0 == img.Length0 && out.Length1 == img.Length1 && out.Length2 == img.Length2
    ensures forall y, x :: 0 <= y < out.Length0 && 0 <= x < out.Length1 ==>
              out[y, x, 0] == 255 && out[y, x, 1] == 255 - img[y, x, 0] && out[y, x, 2] == 255 - img[y, x, 0]
    ensures forall y, x, k :: 0 <= y < out.Length0 && 0 <= x < out.Length1 && 3 <= k < out.Length2 ==>
              out[y, x, k] == 0
  {
    var h, w, c := img.Length0, img.Length1, img.Length2;
    out := new Byte[h, w, c]((_, _, _) => 0);
    var y := 0;
    while y < h
      invariant 0 <= y <= h
      invariant forall i, j, k :: 0 <= i < h && 0 <= j < w && 0 <= k < c ==>
                  out[i, j, k] == if i < y then CyanotypeAt(img[i, j, 0], k) else 0
    {
      var x := 0;
      while x < w
        invariant 0 <= x <= w
        invariant forall i, j, k :: 0 <= i < h && 0 <= j < w && 0 <= k < c ==>
                    out[i, j, k] == if i < y || (i == y && j < x) then CyanotypeAt(img[i, j, 0], k) else 0
      {
        var v := img[y, x, 0];
        out[y, x, 0] := 255;
        out[y, x, 1] := Sub8(255, v);
        out[y, x, 2] := Sub8(255, v);
        x := x + 1;
      }
      y := y + 1;
    }
  }
}

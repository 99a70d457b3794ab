/**
 * The upload filter `allowed_file` (main.py:14-15): a file name is accepted
 * when it contains a '.' and the text after its last '.', lower-cased, is one
 * of the five image extensions of main.py:8.
 */
module Upload {

  /** ALLOWED_EXTENSIONS (main.py:8). */
  const AllowedExtensions: set<string> := {"png", "webp", "jpg", "jpeg", "gif"}

  /** `str.lower()` on one character, restricted to the ASCII letters. */
  function LowerChar(c: char): char
  {
    if 'A' <= c <= 'Z' then (c as int + 32) as char else c
  }

  /** `str.upper()` on one character, restricted to the ASCII letters. */
  function UpperChar(c: char): char
  {
    if 'a' <= c <= 'z' then (c as int - 32) as char else c
  }

  function Lower(s: string): (r: string)
    ensures |r| == |s|
    ensures forall i :: 0 <= i < |s| ==> r[i] == LowerChar(s[i])
  {
    seq(|s|, i requires 0 <= i < |s| => LowerChar(s[i]))
  }

  function Upper(s: string): (r: string)
    ensures |r| == |s|
    ensures forall i :: 0 <= i < |s| ==> r[i] == UpperChar(s[i])
  {
    seq(|s|, i requires 0 <= i < |s| => UpperChar(s[i]))
  }

  /**
   * `s.rsplit('.', 1)[1]`: the text after the last '.'. It holds no '.',
   * and `s` is some prefix, a '.', then this text.
   */
  function AfterLastDot(s: string): (r: string)
    requires '.' in s
    ensures '.' !in r
    ensures |r| < |s| && s[|s| - |r| - 1] == '.' && s[|s| - |r|..] == r
    decreases |s|
  {
    if s[|s| - 1] == '.' then []
    else
      var init := s[..|s| - 1];
      assert '.' in init by {
        var i :| 0 <= i < |s| && s[i] == '.';
        assert init[i] == '.';
      }
      AfterLastDot(init) + [s[|s| - 1]]
  }

  /** `allowed_file(filename)` (main.py:14-15). */
  function AllowedFile(filename: string): (accepted: bool)
    ensures accepted ==> '.' in filename
    ensures accepted ==> 3 <= |AfterLastDot(filename)| <= 4
  {
    '.' in filename && Lower(AfterLastDot(filename)) in AllowedExtensions
  }

  /** The text after the last '.' of `p + "." + e` is `e` whenever `e` holds no '.'. */
  lemma AfterLastDotOfJoin(p: string, e: string)
    requires '.' !in e
    ensures '.' in p + "." + e
    ensures AfterLastDot(p + "." + e) == e
  {
    var s := p + "." + e;
    assert s[|p|] == '.';
    var r := AfterLastDot(s);
    assert |r| == |e|;
    assert r == s[|p| + 1..] == e;
  }

  /** A name is accepted exactly when its extension, lower-cased, is an allowed one. */
  lemma AllowedFileIff(p: string, e: string)
    requires '.' !in e
    ensures AllowedFile(p + "." + e) <==> Lower(e) in AllowedExtensions
  {
    AfterLastDotOfJoin(p, e);
  }

  /** A name without a '.' is always rejected. */
  lemma NoDotRejected(filename: string)
    requires '.' !in filename
    ensures !AllowedFile(filename)
  {
  }

  /** A name ending in '.' has an empty extension and is rejected. */
  lemma EmptyExtensionRejected(p: string)
    ensures !AllowedFile(p + ".")
  {
  }

  /** Only the extension decides: the text before the last '.' does not matter. */
  lemma AllowedFileIgnoresStem(p1: string, p2: string, e: string)
    requires '.' !in e
    ensures AllowedFile(p1 + "." + e) == AllowedFile(p2 + "." + e)
  {
    AllowedFileIff(p1, e);
    AllowedFileIff(p2, e);
  }

  /** The extension is compared without regard to case: `.PNG` is accepted exactly when `.png` is. */
  lemma AllowedFileIgnoresCase(p: string, e: string)
    requires '.' !in e
    ensures AllowedFile(p + "." + Upper(e)) == AllowedFile(p + "." + e)
    ensures AllowedFile(p + "." + Lower(e)) == AllowedFile(p + "." + e)
  {
    assert Lower(Upper(e)) == Lower(e);
    assert Lower(Lower(e)) == Lower(e);
    AllowedFileIff(p, e);
    AllowedFileIff(p, Upper(e));
    AllowedFileIff(p, Lower(e));
  }
}

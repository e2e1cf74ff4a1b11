/** Python's `str.strip` without arguments, used on titles and search keywords. */
module Text {

  /** The code points Python counts as white space. */
  ghost predicate Blank(c: char) {
    var p := c as int;
    || 9 <= p <= 13 || 28 <= p <= 32 || p in [0x85, 0xa0, 0x1680] || 0x2000 <= p <= 0x200a
    || p in [0x2028, 0x2029, 0x202f, 0x205f, 0x3000]
  }

  /** `str.isspace` of one character. */
  predicate IsSpace(c: char): (r: bool)
    ensures r <==> Blank(c)
  {
    || '\t' <= c <= '\r' || '\U{1c}' <= c <= ' ' || c == '\U{85}' || c == '\U{a0}' || c == '\U{1680}'
    || '\U{2000}' <= c <= '\U{200a}'
    || c == '\U{2028}' || c == '\U{2029}' || c == '\U{202f}' || c == '\U{205f}' || c == '\U{3000}'
  }

  ghost predicate AllSpace(s: string) {
    forall c :: c in s ==> IsSpace(c)
  }

  function StripLeft(s: string): (r: string)
    ensures |r| <= |s| && r == s[|s| - |r|..] && AllSpace(s[..|s| - |r|])
    ensures r == "" || !IsSpace(r[0])
  {
    if s != "" && IsSpace(s[0]) then StripLeft(s[1..]) else s
  }

  function StripRight(s: string): (r: string)
    ensures r <= s && AllSpace(s[|r|..])
    ensures r == "" || !IsSpace(r[|r| - 1])
  {
    if s != "" && IsSpace(s[|s| - 1]) then StripRight(s[..|s| - 1]) else s
  }

  function Strip(s: string): (r: string)
    ensures r == "" || (!IsSpace(r[0]) && !IsSpace(r[|r| - 1]))
  {
    StripRight(StripLeft(s))
  }

  /** Only spaces are removed, and only from the two ends. */
  lemma {:induction false} StripRemovesOuterSpace(s: string) returns (i: nat, j: nat)
    ensures i <= j <= |s| && Strip(s) == s[i..j] && AllSpace(s[..i]) && AllSpace(s[j..])
  {
    hide AllSpace, IsSpace, Blank, StripLeft, StripRight;
    var left := StripLeft(s);
    var r := StripRight(left);
    i, j := |s| - |left|, |s| - |left| + |r|;
    assert s[j..] == left[|r|..];
  }

  /** Stripping leaves nothing exactly of blank text. */
  lemma {:induction false} StripEmptyIffBlank(s: string)
    ensures Strip(s) == "" <==> AllSpace(s)
  {
    var i, j := StripRemovesOuterSpace(s);
    var r := Strip(s);
    hide Strip, IsSpace;
    if r == "" {
      forall c | c in s ensures IsSpace(c) {
        assert s == s[..i] + s[j..];
      }
    } else {
      assert r[0] == s[i];
    }
  }
}

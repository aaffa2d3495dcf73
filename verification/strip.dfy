/** Python's `str.strip()` with no arguments. */
module Whitespace {
  import opened Text

  /** The characters Python's `str.strip()` removes: exactly those for which
      `str.isspace()` holds (tab to carriage return, the four information separators,
      space, next line, no-break space and the Unicode space separators). */
  predicate IsSpace(c: char) {
    || '\t' <= c <= '\r'
    || '\U{001C}' <= c <= ' '
    || c == '\U{0085}' || c == '\U{00A0}' || c == '\U{1680}'
    || '\U{2000}' <= c <= '\U{200A}'
    || c == '\U{2028}' || c == '\U{2029}' || c == '\U{202F}' || c == '\U{205F}'
    || c == '\U{3000}'
  }

  /** `l` is `s` with a whitespace-only prefix removed, and does not start with whitespace. */
  predicate IsLStripOf(l: string, s: string) {
    && |l| <= |s| && l == s[|s| - |l|..]
    && (forall i :: 0 <= i < |s| - |l| ==> IsSpace(s[i]))
    && (|l| > 0 ==> !IsSpace(l[0]))
  }

  /** `r` is `l` with a whitespace-only suffix removed, and does not end with whitespace. */
  predicate IsRStripOf(r: string, l: string) {
    && |r| <= |l| && r == l[..|r|]
    && (forall i :: |r| <= i < |l| ==> IsSpace(l[i]))
    && (|r| > 0 ==> !IsSpace(r[|r| - 1]))
  }

  /** `s.lstrip()`. */
  function LStrip(s: string): (r: string)
    ensures IsLStripOf(r, s)
    decreases |s|
  {
    if |s| > 0 && IsSpace(s[0]) then LStrip(s[1..]) else s
  }

  /** `s.rstrip()`. */
  function RStrip(s: string): (r: string)
    ensures IsRStripOf(r, s)
    decreases |s|
  {
    if |s| > 0 && IsSpace(s[|s| - 1]) then RStrip(s[..|s| - 1]) else s
  }

  /** `r` is `s` with its leading whitespace (before index `a`) and trailing whitespace
      removed, and `r` neither starts nor ends with whitespace. */
  ghost predicate IsStripOf(r: string, s: string, a: nat) {
    && a + |r| <= |s|
    && s[a..a + |r|] == r
    && (forall i :: 0 <= i < a ==> IsSpace(s[i]))
    && (forall i :: a + |r| <= i < |s| ==> IsSpace(s[i]))
    && (|r| > 0 ==> !IsSpace(r[0]) && !IsSpace(r[|r| - 1]))
  }

  /** `s.strip()`. */
  function Strip(s: string): (r: string)
    ensures exists a: nat :: IsStripOf(r, s, a)
    ensures |r| > 0 ==> !IsSpace(r[0]) && !IsSpace(r[|r| - 1])
  {
    var l := LStrip(s);
    var r := RStrip(l);
    StripOfEnds(s, l, r);
    r
  }

  /** A whitespace-only prefix of `s` cut off to leave `l`, then a whitespace-only suffix
      of `l` cut off to leave `r`, leaves a strip of `s`. */
  lemma StripOfEnds(s: string, l: string, r: string)
    requires IsLStripOf(l, s) && IsRStripOf(r, l)
    ensures IsStripOf(r, s, |s| - |l|)
    ensures exists a: nat :: IsStripOf(r, s, a)
    ensures |r| > 0 ==> !IsSpace(r[0]) && !IsSpace(r[|r| - 1])
  {
    var a := |s| - |l|;
    forall i | a + |r| <= i < |s|
      ensures IsSpace(s[i])
    {
      assert s[i] == l[i - a];
    }
    if |r| > 0 {
      assert r[0] == l[0];
    }
    assert IsStripOf(r, s, a);
  }

  /** At most one string is a strip of `s`, so `Strip` is fully determined by `IsStripOf`. */
  lemma StripUnique(s: string, r1: string, a1: nat, r2: string, a2: nat)
    requires IsStripOf(r1, s, a1)
    requires IsStripOf(r2, s, a2)
    ensures r1 == r2
  {
    if |r1| > 0 {
      assert s[a1] == r1[0];
      assert s[a1 + |r1| - 1] == r1[|r1| - 1];
    }
    if |r2| > 0 {
      assert s[a2] == r2[0];
      assert s[a2 + |r2| - 1] == r2[|r2| - 1];
    }
  }

  /** Stripping twice is stripping once. */
  lemma StripIdempotent(s: string)
    ensures Strip(Strip(s)) == Strip(s)
  {
    var r := Strip(s);
    var a: nat :| IsStripOf(r, s, a);
    assert r[0..|r|] == r;
    assert IsStripOf(r, r, 0);
    var b: nat :| IsStripOf(Strip(r), r, b);
    StripUnique(r, Strip(r), b, r, 0);
  }

  /** Stripping never introduces an occurrence of a pattern. */
  lemma StripKeepsAbsence(s: string, pat: string)
    requires !Contains(s, pat)
    ensures !Contains(Strip(s), pat)
  {
    var r := Strip(s);
    var a: nat :| IsStripOf(r, s, a);
    NotContainsSlice(s, pat, a, a + |r|);
    assert s[a..a + |r|] == r;
  }
}

/** The Python string operations `str.find`, `str.split(sep)` and `sep.join`,
    over strings as sequences of characters. */
module Text {
  import opened Wrappers

  /** `pat` occurs in `s` starting at index `i`. */
  predicate OccursAt(s: string, pat: string, i: nat) {
    i + |pat| <= |s| && s[i..i + |pat|] == pat
  }

  /** `pat in s`, Python's substring test. */
  ghost predicate Contains(s: string, pat: string) {
    exists i: nat :: OccursAt(s, pat, i)
  }

  /** An occurrence inside a slice is an occurrence in the whole string, shifted by the slice start. */
  lemma OccursInSlice(s: string, pat: string, lo: nat, hi: nat, j: nat)
    requires lo <= hi <= |s|
    ensures OccursAt(s[lo..hi], pat, j) ==> OccursAt(s, pat, lo + j)
  {
    if OccursAt(s[lo..hi], pat, j) {
      var t := s[lo..hi];
      forall k | j <= k < j + |pat|
        ensures t[k] == s[lo + k]
      {
      }
      assert t[j..j + |pat|] == s[lo + j..lo + j + |pat|];
    }
  }

  /** An occurrence that lies after `lo` is an occurrence in the suffix from `lo`. */
  lemma OccursInSuffix(s: string, pat: string, lo: nat, i: nat)
    requires lo <= |s|
    ensures lo <= i && OccursAt(s, pat, i) ==> OccursAt(s[lo..], pat, i - lo)
  {
    if lo <= i && OccursAt(s, pat, i) {
      assert s[lo..][i - lo..i - lo + |pat|] == s[i..i + |pat|];
    }
  }

  /** Each character of an occurrence is the corresponding character of the pattern. */
  lemma OccursAtChar(s: string, pat: string, i: nat, k: nat)
    ensures OccursAt(s, pat, i) && i <= k < i + |pat| ==> s[k] == pat[k - i]
  {
    if OccursAt(s, pat, i) && i <= k < i + |pat| {
      assert s[i..i + |pat|][k - i] == s[k];
    }
  }

  /** A slice of a string free of `pat` is free of `pat`. */
  lemma NotContainsSlice(s: string, pat: string, lo: nat, hi: nat)
    requires lo <= hi <= |s|
    requires !Contains(s, pat)
    ensures !Contains(s[lo..hi], pat)
  {
    forall j: nat
      ensures !OccursAt(s[lo..hi], pat, j)
    {
      OccursInSlice(s, pat, lo, hi, j);
    }
  }

  /** `s.find(pat, k)`: the first index at or after `k` where `pat` occurs, or `None`
      (Python's -1). */
  function IndexFrom(s: string, pat: string, k: nat): (r: Option<nat>)
    ensures r.Some? ==> k <= r.value && r.value + |pat| <= |s|
    decreases |s| - k
  {
    if k + |pat| > |s| then None
    else if OccursAt(s, pat, k) then Some(k)
    else IndexFrom(s, pat, k + 1)
  }

  /** `IndexFrom` reports an occurrence with none before it, or `None` when there is none at all. */
  lemma {:induction false} IndexFromIsFirst(s: string, pat: string, k: nat)
    ensures var r := IndexFrom(s, pat, k);
      && (r.Some? ==> OccursAt(s, pat, r.value))
      && (r.Some? ==> forall j: nat :: k <= j < r.value ==> !OccursAt(s, pat, j))
      && (r.None? ==> forall j: nat :: k <= j ==> !OccursAt(s, pat, j))
    decreases |s| - k
  {
    if k + |pat| <= |s| && s[k..k + |pat|] != pat {
      IndexFromIsFirst(s, pat, k + 1);
    }
  }

  /** The concatenation of `f(x)` for each `x` of `xs`, accumulated left to right. */
  function ConcatMap<T>(f: T -> string, xs: seq<T>): string {
    if |xs| == 0 then "" else ConcatMap(f, xs[..|xs| - 1]) + f(xs[|xs| - 1])
  }

  /** Appending one element appends its image. */
  lemma ConcatMapSnoc<T>(f: T -> string, xs: seq<T>, x: T)
    ensures ConcatMap(f, xs + [x]) == ConcatMap(f, xs) + f(x)
  {
    assert (xs + [x])[..|xs|] == xs;
  }

  /** `ConcatMap` turns list concatenation into string concatenation. */
  lemma {:induction false} ConcatMapAppend<T>(f: T -> string, xs: seq<T>, ys: seq<T>)
    ensures ConcatMap(f, xs + ys) == ConcatMap(f, xs) + ConcatMap(f, ys)
    decreases |ys|
  {
    if |ys| == 0 {
      assert xs + ys == xs;
    } else {
      var init := ys[..|ys| - 1];
      var last := ys[|ys| - 1];
      assert ys == init + [last];
      assert xs + ys == (xs + init) + [last];
      ConcatMapAppend(f, xs, init);
      ConcatMapSnoc(f, xs + init, last);
      ConcatMapSnoc(f, init, last);
    }
  }

  /** `sep.join(parts)`. */
  function Join(parts: seq<string>, sep: string): string
    requires |parts| >= 1
  {
    if |parts| == 1 then parts[0] else parts[0] + sep + Join(parts[1..], sep)
  }

  /** `s.split(sep)`: cut at each occurrence of `sep`, scanning left to right
      without overlaps. */
  function Split(s: string, sep: string): (parts: seq<string>)
    requires |sep| > 0
    ensures |parts| >= 1
    decreases |s|
  {
    match IndexFrom(s, sep, 0)
    case None => [s]
    case Some(i) => [s[..i]] + Split(s[i + |sep|..], sep)
  }

  /** When `sep` does not occur, the split is the whole string alone. */
  lemma SplitNone(s: string, sep: string)
    requires |sep| > 0
    requires IndexFrom(s, sep, 0).None?
    ensures Split(s, sep) == [s]
  {
  }

  /** When `sep` is first found at `i`, the split is the piece before `i` followed by
      the split of what comes after the separator. */
  lemma SplitStep(s: string, sep: string, i: nat)
    requires |sep| > 0
    requires IndexFrom(s, sep, 0) == Some(i)
    ensures i + |sep| <= |s|
    ensures Split(s, sep) == [s[..i]] + Split(s[i + |sep|..], sep)
  {
  }

  /** A string is what precedes an occurrence, the occurrence, and what follows it. */
  lemma AroundOccurrence(s: string, pat: string, i: nat)
    requires OccursAt(s, pat, i)
    ensures s == s[..i] + pat + s[i + |pat|..]
  {
    assert s == s[..i] + s[i..i + |pat|] + s[i + |pat|..];
  }

  lemma JoinPrepend(x: string, parts: seq<string>, sep: string)
    requires |parts| >= 1
    ensures Join([x] + parts, sep) == x + sep + Join(parts, sep)
  {
    assert ([x] + parts)[1..] == parts;
  }

  /** Joining the pieces of a split with the separator gives back the string. */
  lemma {:induction false} SplitJoinRoundTrip(s: string, sep: string)
    requires |sep| > 0
    ensures Join(Split(s, sep), sep) == s
    decreases |s|
  {
    IndexFromIsFirst(s, sep, 0);
    match IndexFrom(s, sep, 0)
    case None =>
      SplitNone(s, sep);
    case Some(i) =>
      var rest := s[i + |sep|..];
      SplitJoinRoundTrip(rest, sep);
      SplitStep(s, sep, i);
      JoinPrepend(s[..i], Split(rest, sep), sep);
      AroundOccurrence(s, sep, i);
  }

  /** The piece before the first occurrence of `sep` does not contain `sep`. */
  lemma HeadAvoidsSeparator(s: string, sep: string, i: nat)
    requires |sep| > 0
    requires forall j: nat :: j < i ==> !OccursAt(s, sep, j)
    requires i <= |s|
    ensures !Contains(s[..i], sep)
  {
    assert s[..i] == s[0..i];
    forall j: nat
      ensures !OccursAt(s[..i], sep, j)
    {
      OccursInSlice(s, sep, 0, i, j);
    }
  }

  /** No piece of a split contains the separator. */
  lemma {:induction false} SplitPiecesAvoidSeparator(s: string, sep: string)
    requires |sep| > 0
    ensures forall k :: 0 <= k < |Split(s, sep)| ==> !Contains(Split(s, sep)[k], sep)
    decreases |s|
  {
    IndexFromIsFirst(s, sep, 0);
    match IndexFrom(s, sep, 0)
    case None =>
      SplitNone(s, sep);
    case Some(i) =>
      var rest := s[i + |sep|..];
      SplitPiecesAvoidSeparator(rest, sep);
      SplitStep(s, sep, i);
      HeadAvoidsSeparator(s, sep, i);
  }

  /** `s.split(sep)[-1]`: the last piece of the split. */
  function LastPiece(s: string, sep: string): string
    requires |sep| > 0
  {
    Last(Split(s, sep))
  }

  /** `xs[-1]`. */
  function Last<T>(xs: seq<T>): T
    requires |xs| > 0
  {
    xs[|xs| - 1]
  }

  lemma LastOfPrepend<T>(x: T, xs: seq<T>)
    requires |xs| > 0
    ensures Last([x] + xs) == Last(xs)
  {
  }

  /** When `sep` is first found at `i`, the last piece is the last piece of what follows it. */
  lemma LastPieceStep(s: string, sep: string, i: nat)
    requires |sep| > 0
    requires IndexFrom(s, sep, 0) == Some(i)
    ensures i + |sep| <= |s|
    ensures LastPiece(s, sep) == LastPiece(s[i + |sep|..], sep)
  {
    SplitStep(s, sep, i);
    LastOfPrepend(s[..i], Split(s[i + |sep|..], sep));
  }

  /** A tail that follows an occurrence in a suffix also follows an occurrence in the whole string. */
  lemma TailShift(s: string, sep: string, lo: nat, t: string)
    requires lo <= |s|
    requires |t| + |sep| <= |s| - lo
    requires OccursAt(s[lo..], sep, |s| - lo - |t| - |sep|)
    requires t == s[lo..][|s| - lo - |t|..]
    ensures OccursAt(s, sep, |s| - |t| - |sep|) && t == s[|s| - |t|..]
  {
    assert s[lo..] == s[lo..|s|];
    OccursInSlice(s, sep, lo, |s|, |s| - lo - |t| - |sep|);
  }

  /** The last piece holds no occurrence of `sep`: it is the whole string when `sep` does
      not occur, and otherwise a suffix that directly follows an occurrence of `sep`. */
  lemma {:induction false} LastPieceIsTail(s: string, sep: string)
    requires |sep| > 0
    ensures !Contains(LastPiece(s, sep), sep)
    ensures !Contains(s, sep) ==> LastPiece(s, sep) == s
    ensures Contains(s, sep) ==>
      var t := LastPiece(s, sep);
      |t| + |sep| <= |s| && OccursAt(s, sep, |s| - |t| - |sep|) && t == s[|s| - |t|..]
    decreases |s|
  {
    var t := LastPiece(s, sep);
    IndexFromIsFirst(s, sep, 0);
    match IndexFrom(s, sep, 0)
    case None =>
      SplitNone(s, sep);
      assert t == s;
    case Some(i) =>
      assert OccursAt(s, sep, i);
      var lo := i + |sep|;
      var rest := s[lo..];
      LastPieceStep(s, sep, i);
      assert t == LastPiece(rest, sep);
      LastPieceIsTail(rest, sep);
      if Contains(rest, sep) {
        TailShift(s, sep, lo, t);
      } else {
        assert t == rest;
        assert |s| - |t| - |sep| == i;
      }
  }
}

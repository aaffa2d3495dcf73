/** Python sequence helpers: repetition `xs * n`, an element-wise map, and drawing
    elements at chosen positions as `random.sample` does. */
module Sequences {

  /** `xs * n`: `n` copies of `xs` one after another; no copies when `n` is not positive. */
  function Repeat<T>(xs: seq<T>, n: int): seq<T>
    decreases n
  {
    if n <= 0 then [] else xs + Repeat(xs, n - 1)
  }

  /** `xs * n` holds `n` times as many elements as `xs`, and none when `n` is not positive. */
  lemma {:induction false} RepeatLength<T>(xs: seq<T>, n: int)
    ensures |Repeat(xs, n)| == if n > 0 then n * |xs| else 0
    decreases n
  {
    if n > 0 {
      RepeatLength(xs, n - 1);
      assert n * |xs| == |xs| + (n - 1) * |xs|;
    }
  }

  /** Position `i` of `xs * n` holds the element at position `i % len(xs)` of `xs`. */
  lemma {:induction false} RepeatIndex<T>(xs: seq<T>, n: int, i: int)
    requires 0 <= i < |Repeat(xs, n)|
    ensures |xs| > 0 && Repeat(xs, n)[i] == xs[i % |xs|]
    decreases n
  {
    var rest := Repeat(xs, n - 1);
    assert Repeat(xs, n) == xs + rest;
    RepeatLength(xs, n);
    if i < |xs| {
      ModUnique(i, |xs|, 0, i);
    } else {
      RepeatIndex(xs, n - 1, i - |xs|);
      ModShift(i, |xs|);
    }
  }

  /** Repeating once more puts one more copy in front. */
  lemma RepeatSucc<T>(xs: seq<T>, n: int)
    requires n >= 1
    ensures Repeat(xs, n) == xs + Repeat(xs, n - 1)
  {
  }

  /** Shifting by one period leaves the remainder unchanged. */
  lemma ModShift(i: int, m: int)
    requires 0 < m <= i
    ensures (i - m) % m == i % m
  {
    ModUnique(i, m, (i - m) / m + 1, (i - m) % m);
  }

  /** Euclidean remainders are unique: `q * m + r` with `0 <= r < m` leaves remainder `r`. */
  lemma ModUnique(i: int, m: int, q: int, r: int)
    requires m > 0 && 0 <= r < m && i == q * m + r
    ensures i % m == r
  {
    var d := q - i / m;
    assert d * m == i % m - r;
    if d >= 1 {
      MulAtLeast(d, m);
    } else if d <= -1 {
      MulAtLeast(-d, m);
    }
  }

  lemma MulAtLeast(d: int, m: int)
    requires d >= 1 && m > 0
    ensures d * m >= m
  {
    if d > 1 {
      MulAtLeast(d - 1, m);
      assert d * m == (d - 1) * m + m;
    }
  }

  /** `[f(x) for x in xs]`. */
  function Map<A, B>(f: A --> B, xs: seq<A>): (ys: seq<B>)
    requires forall i :: 0 <= i < |xs| ==> f.requires(xs[i])
    ensures |ys| == |xs|
  {
    seq(|xs|, i requires 0 <= i < |xs| => f(xs[i]))
  }

  /** Mapping a concatenation maps each part. */
  lemma MapAppend<A, B>(f: A --> B, xs: seq<A>, ys: seq<A>)
    requires forall x :: f.requires(x)
    ensures Map(f, xs + ys) == Map(f, xs) + Map(f, ys)
  {
    var l, r := Map(f, xs + ys), Map(f, xs) + Map(f, ys);
    forall i | 0 <= i < |l|
      ensures l[i] == r[i]
    {
      if i >= |xs| {
        assert (xs + ys)[i] == ys[i - |xs|];
      }
    }
  }

  /** Mapping `xs * n` gives `n` copies of the mapped list. */
  lemma {:induction false} MapRepeat<A, B>(f: A --> B, xs: seq<A>, n: int)
    requires forall x :: f.requires(x)
    ensures Map(f, Repeat(xs, n)) == Repeat(Map(f, xs), n)
    decreases n
  {
    if n >= 1 {
      RepeatSucc(xs, n);
      RepeatSucc(Map(f, xs), n);
      MapRepeat(f, xs, n - 1);
      MapAppend(f, xs, Repeat(xs, n - 1));
    }
  }

  /** Every position in `ps` is a valid index into a list of length `n`. */
  predicate InRange(ps: seq<nat>, n: nat) {
    forall i :: 0 <= i < |ps| ==> ps[i] < n
  }

  /** No position occurs twice in `ps`. */
  predicate Distinct(ps: seq<nat>) {
    forall i, j :: 0 <= i < j < |ps| ==> ps[i] != ps[j]
  }

  /** The elements of `xs` at the positions `ps`, in the order of `ps`. */
  function Pick<T>(xs: seq<T>, ps: seq<nat>): (ys: seq<T>)
    requires InRange(ps, |xs|)
    ensures |ys| == |ps|
  {
    seq(|ps|, i requires 0 <= i < |ps| => xs[ps[i]])
  }

  /** Picking at distinct positions draws without replacement: no element is taken more
      often than it occurs. */
  lemma {:induction false} PickSubMultiset<T>(xs: seq<T>, ps: seq<nat>)
    requires InRange(ps, |xs|) && Distinct(ps)
    ensures multiset(Pick(xs, ps)) <= multiset(xs)
    decreases |xs|
  {
    if |ps| == 0 {
      assert Pick(xs, ps) == [];
    } else {
      assert ps[0] < |xs|;
      var last := |xs| - 1;
      var init := xs[..last];
      assert xs == init + [xs[last]];
      if j :| 0 <= j < |ps| && ps[j] == last {
        var qs := ps[..j] + ps[j + 1..];
        DropOne(ps, j, last);
        PickNarrow(xs, qs, last);
        PickSubMultiset(init, qs);
        PickDropOne(xs, ps, j);
      } else {
        assert InRange(ps, last);
        PickNarrow(xs, ps, last);
        PickSubMultiset(init, ps);
      }
    }
  }

  /** Removing the position at `j`, where `ps` holds the largest index `m`, leaves distinct
      positions below `m`. */
  lemma DropOne(ps: seq<nat>, j: nat, m: nat)
    requires j < |ps| && ps[j] == m && InRange(ps, m + 1) && Distinct(ps)
    ensures InRange(ps[..j] + ps[j + 1..], m) && Distinct(ps[..j] + ps[j + 1..])
  {
    var qs := ps[..j] + ps[j + 1..];
    forall i | 0 <= i < |qs|
      ensures qs[i] == ps[if i < j then i else i + 1]
    {
    }
  }

  /** Positions below `m` pick the same elements from the first `m` elements. */
  lemma PickNarrow<T>(xs: seq<T>, ps: seq<nat>, m: nat)
    requires m <= |xs| && InRange(ps, m)
    ensures Pick(xs[..m], ps) == Pick(xs, ps)
  {
  }

  /** Dropping one position drops its element, and the multiset loses exactly that one. */
  lemma PickDropOne<T>(xs: seq<T>, ps: seq<nat>, j: nat)
    requires InRange(ps, |xs|) && j < |ps|
    ensures InRange(ps[..j] + ps[j + 1..], |xs|)
    ensures multiset(Pick(xs, ps)) == multiset(Pick(xs, ps[..j] + ps[j + 1..])) + multiset{xs[ps[j]]}
  {
    var ys := Pick(xs, ps);
    var qs := ps[..j] + ps[j + 1..];
    forall i | 0 <= i < |qs|
      ensures qs[i] == ps[if i < j then i else i + 1]
    {
    }
    assert Pick(xs, qs) == ys[..j] + ys[j + 1..];
    assert ys == ys[..j] + [ys[j]] + ys[j + 1..];
  }
}

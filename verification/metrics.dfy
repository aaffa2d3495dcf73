/** Aggregating per-sample results into the run's metrics, in exact rational
    arithmetic where the harness uses floating point. */
module Metrics {
  import opened Wrappers
  import opened Classes
  import opened Sequences

  /** The exception an aggregation step raises. */
  datatype AggregateError = KeyError(key: string) | ZeroDivisionError

  /** Every result carries `key` among its metrics. */
  predicate HasMetric(results: seq<SingleEvalResult>, key: string) {
    forall i :: 0 <= i < |results| ==> key in results[i].metrics
  }

  /** `sum(result.metrics[key] for result in results)`, accumulated left to right. */
  function MetricSum(results: seq<SingleEvalResult>, key: string): real
    requires HasMetric(results, key)
  {
    if |results| == 0 then 0.0
    else MetricSum(results[..|results| - 1], key) + results[|results| - 1].metrics[key]
  }

  /** The sum over a concatenation is the sum of the sums. */
  lemma {:induction false} MetricSumAppend(xs: seq<SingleEvalResult>, ys: seq<SingleEvalResult>, key: string)
    requires HasMetric(xs, key) && HasMetric(ys, key)
    ensures HasMetric(xs + ys, key)
    ensures MetricSum(xs + ys, key) == MetricSum(xs, key) + MetricSum(ys, key)
    decreases |ys|
  {
    assert HasMetric(xs + ys, key) by {
      forall i | 0 <= i < |xs + ys|
        ensures key in (xs + ys)[i].metrics
      {
        if i >= |xs| {
          assert (xs + ys)[i] == ys[i - |xs|];
        }
      }
    }
    if |ys| == 0 {
      assert xs + ys == xs;
    } else {
      var init := ys[..|ys| - 1];
      assert HasMetric(init, key) by {
        forall i | 0 <= i < |init|
          ensures key in init[i].metrics
        {
          assert init[i] == ys[i];
        }
      }
      MetricSumAppend(xs, init, key);
      assert (xs + ys)[..|xs + ys| - 1] == xs + init;
    }
  }

  /** `sum(...) / len(results)`: the mean of one metric. A result missing the key
      raises `KeyError` while summing; an empty list then divides by zero. */
  function Mean(results: seq<SingleEvalResult>, key: string): (r: Result<real, AggregateError>)
    ensures r.Success? <==> HasMetric(results, key) && |results| > 0
    ensures !HasMetric(results, key) ==> r == Failure(KeyError(key))
    ensures HasMetric(results, key) && |results| == 0 ==> r == Failure(ZeroDivisionError)
    ensures r.Success? ==> r.value * (|results| as real) == MetricSum(results, key)
  {
    if !HasMetric(results, key) then Failure(KeyError(key))
    else if |results| == 0 then Failure(ZeroDivisionError)
    else Success(MetricSum(results, key) / (|results| as real))
  }

  /** The `aggregate_metrics` dictionary of `evaluate`. */
  datatype AggregateMetrics = AggregateMetrics(
    isCorrect: real,
    isIncorrect: real,
    isNotAttempted: real,
    isGivenAttempted: real,
    accuracyGivenAttempted: real)

  /** The share of attempted answers that are correct, or 0 when nothing was attempted. */
  function AccuracyGivenAttempted(isCorrect: real, isGivenAttempted: real): (a: real)
    ensures isGivenAttempted > 0.0 ==> a * isGivenAttempted == isCorrect
    ensures isGivenAttempted <= 0.0 ==> a == 0.0
    ensures 0.0 <= isCorrect <= isGivenAttempted ==> 0.0 <= a <= 1.0
  {
    if isGivenAttempted > 0.0 then isCorrect / isGivenAttempted else 0.0
  }

  /** The harness's `f1`: twice the product over the sum of the accuracy given attempted
      and the correct rate, or 0 when that sum is not positive. */
  function F1(accuracyGivenAttempted: real, isCorrect: real): (f: real)
    ensures accuracyGivenAttempted + isCorrect > 0.0 ==>
      f * (accuracyGivenAttempted + isCorrect) == 2.0 * accuracyGivenAttempted * isCorrect
    ensures accuracyGivenAttempted + isCorrect <= 0.0 ==> f == 0.0
  {
    var total := accuracyGivenAttempted + isCorrect;
    if total > 0.0 then 2.0 * accuracyGivenAttempted * isCorrect / total else 0.0
  }

  /** For two rates in [0, 1] the score stays in [0, 1] and lies between them. */
  lemma F1Bounds(a: real, c: real)
    requires 0.0 <= a <= 1.0 && 0.0 <= c <= 1.0
    ensures 0.0 <= F1(a, c) <= 1.0
    ensures a <= c ==> a <= F1(a, c) <= c
    ensures c <= a ==> c <= F1(a, c) <= a
  {
    if a + c > 0.0 {
      if a <= c {
        F1Between(a, c);
      } else {
        F1Between(c, a);
        assert F1(a, c) == F1(c, a);
      }
    }
  }

  /** With `lo <= hi` and a positive sum, the score lies between `lo` and `hi`, and below 1
      when `hi` is. */
  lemma F1Between(lo: real, hi: real)
    requires 0.0 <= lo <= hi && lo + hi > 0.0
    ensures lo <= F1(lo, hi) <= hi
    ensures hi <= 1.0 ==> F1(lo, hi) <= 1.0
  {
    var f := F1(lo, hi);
    var t := lo + hi;
    F1ScaledBetween(lo, hi);
    ScaleCompare(lo, f, t);
    ScaleCompare(f, hi, t);
  }

  /** `F1Between` before dividing by the sum: the score times the sum lies between `lo`
      and `hi` times the sum. */
  lemma F1ScaledBetween(lo: real, hi: real)
    requires 0.0 <= lo <= hi && lo + hi > 0.0
    ensures lo * (lo + hi) <= F1(lo, hi) * (lo + hi) <= hi * (lo + hi)
  {
    var t := lo + hi;
    var p := lo * hi;
    F1Scaled(lo, hi);
    NonNegativeProduct(lo, hi - lo);
    NonNegativeProduct(hi, hi - lo);
    ProductsOfSum(lo, hi);
    OrderedBySquares(lo * t, F1(lo, hi) * t, hi * t, p, lo * lo, hi * hi, lo * (hi - lo), hi * (hi - lo));
  }

  /** The score times the sum of the rates is twice their product. */
  lemma F1Scaled(a: real, c: real)
    requires a + c > 0.0
    ensures F1(a, c) * (a + c) == 2.0 * (a * c)
  {
  }

  /** The products of `lo` and `hi` with their sum and their difference, multiplied out. */
  lemma ProductsOfSum(lo: real, hi: real)
    ensures lo * (lo + hi) == lo * lo + lo * hi
    ensures hi * (lo + hi) == lo * hi + hi * hi
    ensures lo * (hi - lo) == lo * hi - lo * lo
    ensures hi * (hi - lo) == hi * hi - lo * hi
  {
  }

  /** The linear step of `F1Between`, with every product already named. */
  lemma OrderedBySquares(lt: real, ft: real, ht: real, p: real, ll: real, hh: real, dl: real, dh: real)
    requires ft == 2.0 * p
    requires lt == ll + p && ht == p + hh
    requires dl == p - ll && dh == hh - p
    requires dl >= 0.0 && dh >= 0.0
    ensures lt <= ft <= ht
  {
  }

  /** Comparing two numbers scaled by the same positive factor compares the numbers. */
  lemma ScaleCompare(x: real, y: real, t: real)
    requires t > 0.0
    requires x * t <= y * t
    ensures x <= y
  {
    if x > y {
      PositiveProduct(x - y, t);
    }
  }

  lemma PositiveProduct(x: real, y: real)
    requires x > 0.0 && y > 0.0
    ensures x * y > 0.0
  {
  }

  /** When both rates are positive the score is their harmonic mean. */
  lemma F1IsHarmonicMean(a: real, c: real)
    requires a > 0.0 && c > 0.0
    ensures F1(a, c) * (1.0 / a + 1.0 / c) == 2.0
  {
    var f := F1(a, c);
    assert f * (a + c) == 2.0 * a * c;
    assert 1.0 / a + 1.0 / c == (a + c) / (a * c);
  }

  lemma NonNegativeProduct(x: real, y: real)
    requires x >= 0.0 && y >= 0.0
    ensures x * y >= 0.0
  {
  }

  /** `m` holds the means of the three sums `sc`, `si`, `sn` over `n` samples, the
      attempted rate as the sum of the first two means, and the accuracy among
      attempted answers. */
  predicate MeansOf(m: AggregateMetrics, sc: real, si: real, sn: real, n: real) {
    && n > 0.0
    && m.isCorrect * n == sc
    && m.isIncorrect * n == si
    && m.isNotAttempted * n == sn
    && m.isGivenAttempted == m.isCorrect + m.isIncorrect
    && m.accuracyGivenAttempted == AccuracyGivenAttempted(m.isCorrect, m.isGivenAttempted)
  }

  /** The metrics `evaluate` computes: the three rates, in the order the dictionary is
      built, then the attempted rate and the accuracy among attempted answers. The first
      key some result lacks raises `KeyError`; an empty list raises `ZeroDivisionError`. */
  function Aggregate(results: seq<SingleEvalResult>): (r: Result<AggregateMetrics, AggregateError>)
    ensures r.Success? <==>
      && |results| > 0
      && HasMetric(results, "is_correct")
      && HasMetric(results, "is_incorrect")
      && HasMetric(results, "is_not_attempted")
    ensures !HasMetric(results, "is_correct") ==> r == Failure(KeyError("is_correct"))
    ensures HasMetric(results, "is_correct") && !HasMetric(results, "is_incorrect")
      ==> r == Failure(KeyError("is_incorrect"))
    ensures HasMetric(results, "is_correct") && HasMetric(results, "is_incorrect")
      && !HasMetric(results, "is_not_attempted")
      ==> r == Failure(KeyError("is_not_attempted"))
    ensures |results| == 0 ==> r == Failure(ZeroDivisionError)
    ensures r.Success? ==> MeansOf(r.value, MetricSum(results, "is_correct"),
      MetricSum(results, "is_incorrect"), MetricSum(results, "is_not_attempted"), |results| as real)
  {
    match Mean(results, "is_correct")
    case Failure(e) => Failure(e)
    case Success(isCorrect) =>
      match Mean(results, "is_incorrect")
      case Failure(e) => Failure(e)
      case Success(isIncorrect) =>
        match Mean(results, "is_not_attempted")
        case Failure(e) => Failure(e)
        case Success(isNotAttempted) =>
          var isGivenAttempted := isCorrect + isIncorrect;
          Success(AggregateMetrics(isCorrect, isIncorrect, isNotAttempted, isGivenAttempted,
            AccuracyGivenAttempted(isCorrect, isGivenAttempted)))
  }

  /** The metrics of one graded sample: each of the three outcomes is 0 or 1, and exactly
      one of them is 1. */
  predicate IsOutcome(m: map<string, real>) {
    && "is_correct" in m && "is_incorrect" in m && "is_not_attempted" in m
    && (m["is_correct"] == 0.0 || m["is_correct"] == 1.0)
    && (m["is_incorrect"] == 0.0 || m["is_incorrect"] == 1.0)
    && (m["is_not_attempted"] == 0.0 || m["is_not_attempted"] == 1.0)
    && m["is_correct"] + m["is_incorrect"] + m["is_not_attempted"] == 1.0
  }

  /** Every result is the outcome of one graded sample. */
  predicate AllOutcomes(results: seq<SingleEvalResult>) {
    forall i :: 0 <= i < |results| ==> IsOutcome(results[i].metrics)
  }

  /** Three sums that share out `n` samples: each between 0 and `n`, together `n`. */
  predicate SharesOut(sc: real, si: real, sn: real, n: real) {
    && 0.0 <= sc <= n && 0.0 <= si <= n && 0.0 <= sn <= n
    && sc + si + sn == n
  }

  /** Over graded samples the three sums share out the samples between them. */
  lemma {:induction false} OutcomeSums(results: seq<SingleEvalResult>)
    requires AllOutcomes(results)
    ensures HasMetric(results, "is_correct") && HasMetric(results, "is_incorrect")
      && HasMetric(results, "is_not_attempted")
    ensures SharesOut(MetricSum(results, "is_correct"), MetricSum(results, "is_incorrect"),
      MetricSum(results, "is_not_attempted"), |results| as real)
  {
    assert forall i :: 0 <= i < |results| ==> IsOutcome(results[i].metrics);
    if |results| > 0 {
      var init := results[..|results| - 1];
      assert AllOutcomes(init) by {
        forall i | 0 <= i < |init|
          ensures IsOutcome(init[i].metrics)
        {
          assert init[i] == results[i];
        }
      }
      OutcomeSums(init);
      assert IsOutcome(results[|results| - 1].metrics);
    }
  }

  /** Over a non-empty list of graded samples aggregation succeeds and every metric is
      within bounds. */
  lemma AggregateOutcomes(results: seq<SingleEvalResult>)
    requires |results| > 0 && AllOutcomes(results)
    ensures Aggregate(results).Success?
    ensures WithinBounds(Aggregate(results).value)
  {
    OutcomeSums(results);
    MetricsWithinBounds(Aggregate(results).value, MetricSum(results, "is_correct"),
      MetricSum(results, "is_incorrect"), MetricSum(results, "is_not_attempted"), |results| as real);
  }

  /** The three rates lie in [0, 1] and add up to 1; the attempted rate, the accuracy
      among attempted answers and the `f1` score lie in [0, 1]. */
  predicate WithinBounds(m: AggregateMetrics) {
    && 0.0 <= m.isCorrect <= 1.0
    && 0.0 <= m.isIncorrect <= 1.0
    && 0.0 <= m.isNotAttempted <= 1.0
    && m.isCorrect + m.isIncorrect + m.isNotAttempted == 1.0
    && 0.0 <= m.isGivenAttempted <= 1.0
    && 0.0 <= m.accuracyGivenAttempted <= 1.0
    && 0.0 <= F1(m.accuracyGivenAttempted, m.isCorrect) <= 1.0
  }

  /** Means of three sums that share out the samples are within bounds. */
  lemma MetricsWithinBounds(m: AggregateMetrics, sc: real, si: real, sn: real, n: real)
    requires MeansOf(m, sc, si, sn, n) && SharesOut(sc, si, sn, n)
    ensures WithinBounds(m)
  {
    ThreeRates(m.isCorrect, m.isIncorrect, m.isNotAttempted, sc, si, sn, n);
    F1Bounds(m.accuracyGivenAttempted, m.isCorrect);
  }

  /** Three rates of counts that share out `n` lie in [0, 1] and add up to 1. */
  lemma ThreeRates(x: real, y: real, z: real, sx: real, sy: real, sz: real, n: real)
    requires n > 0.0 && x * n == sx && y * n == sy && z * n == sz
    requires 0.0 <= sx <= n && 0.0 <= sy <= n && 0.0 <= sz <= n && sx + sy + sz == n
    ensures 0.0 <= x <= 1.0 && 0.0 <= y <= 1.0 && 0.0 <= z <= 1.0
    ensures x + y + z == 1.0
  {
    RateBounds(x, sx, n);
    RateBounds(y, sy, n);
    RateBounds(z, sz, n);
    var w := x + y + z;
    assert w * n == x * n + y * n + z * n;
    ScaleCompare(w, 1.0, n);
    ScaleCompare(1.0, w, n);
  }

  /** A rate `x` with `x * n == s` and `0 <= s <= n` lies in [0, 1]. */
  lemma RateBounds(x: real, s: real, n: real)
    requires n > 0.0 && x * n == s && 0.0 <= s <= n
    ensures 0.0 <= x <= 1.0
  {
    ScaleCompare(0.0, x, n);
    ScaleCompare(x, 1.0, n);
  }

  /** Every copy in a repetition has the key exactly when the original list does. */
  lemma HasMetricRepeat(results: seq<SingleEvalResult>, key: string, n: int)
    requires n >= 1
    ensures HasMetric(Repeat(results, n), key) <==> HasMetric(results, key)
  {
    var r := Repeat(results, n);
    if HasMetric(results, key) {
      forall i | 0 <= i < |r|
        ensures key in r[i].metrics
      {
        RepeatIndex(results, n, i);
      }
    }
    if HasMetric(r, key) {
      RepeatSucc(results, n);
      forall i | 0 <= i < |results|
        ensures key in results[i].metrics
      {
        assert r[i] == results[i];
      }
    }
  }

  /** Summing over `n` copies multiplies the sum by `n`. */
  lemma {:induction false} MetricSumRepeat(results: seq<SingleEvalResult>, key: string, n: int)
    requires n >= 1 && HasMetric(results, key)
    ensures HasMetric(Repeat(results, n), key)
    ensures MetricSum(Repeat(results, n), key) == (n as real) * MetricSum(results, key)
    decreases n
  {
    HasMetricRepeat(results, key, n);
    var s := MetricSum(results, key);
    if n > 1 {
      var rest := Repeat(results, n - 1);
      RepeatSucc(results, n);
      MetricSumRepeat(results, key, n - 1);
      MetricSumAppend(results, rest, key);
      assert MetricSum(Repeat(results, n), key) == s + MetricSum(rest, key);
      ScaleStep(n, s);
      assert MetricSum(rest, key) == ((n - 1) as real) * s;
      assert (n as real) * s == s + ((n - 1) as real) * s;
      assert MetricSum(Repeat(results, n), key) == (n as real) * s;
    } else {
      assert Repeat(results, n) == results;
      assert (n as real) * s == s;
    }
  }

  /** `examples * n_repeats` does not change the mean of a metric: the same error is
      raised, or the same mean is computed. */
  lemma {:induction false} MeanRepeat(results: seq<SingleEvalResult>, key: string, n: int)
    requires n >= 1
    ensures Mean(Repeat(results, n), key) == Mean(results, key)
    decreases n
  {
    HasMetricRepeat(results, key, n);
    RepeatLength(results, n);
    RepeatSucc(results, n);
    if n == 1 {
      assert Repeat(results, n) == results;
    } else if Mean(results, key).Success? {
      MeanRepeat(results, key, n - 1);
      MeanAppendSame(results, Repeat(results, n - 1), key);
    }
  }

  /** Joining two lists with the same mean keeps that mean. */
  lemma MeanAppendSame(xs: seq<SingleEvalResult>, ys: seq<SingleEvalResult>, key: string)
    requires Mean(xs, key).Success? && Mean(ys, key) == Mean(xs, key)
    ensures Mean(xs + ys, key) == Mean(xs, key)
  {
    MetricSumAppend(xs, ys, key);
    MeanOfUnion(MetricSum(xs, key), |xs| as real, MetricSum(ys, key), |ys| as real,
      Mean(xs, key).value);
  }

  /** Pooling two groups whose averages are both `m` gives an average of `m`. */
  lemma MeanOfUnion(sa: real, la: real, sb: real, lb: real, m: real)
    requires la > 0.0
    requires lb > 0.0
    requires sa / la == m
    requires sb / lb == m
    ensures (sa + sb) / (la + lb) == m
  {
    assert sa == m * la;
    assert sb == m * lb;
    assert sa + sb == m * (la + lb);
  }

  /** `examples * n_repeats` does not change the aggregate metrics: the same error is
      raised, or the same metrics are computed. */
  lemma AggregateRepeat(results: seq<SingleEvalResult>, n: int)
    requires n >= 1
    ensures Aggregate(Repeat(results, n)) == Aggregate(results)
  {
    MeanRepeat(results, "is_correct", n);
    MeanRepeat(results, "is_incorrect", n);
    MeanRepeat(results, "is_not_attempted", n);
  }

  lemma ScaleStep(n: int, s: real)
    ensures (n as real) * s == s + ((n - 1) as real) * s
  {
  }

  /** `acc` is the share of `a` in `a + b`, or 0 when `a + b` is 0. */
  predicate AccuracyOfCounts(acc: real, a: real, b: real) {
    && (a + b > 0.0 ==> acc * (a + b) == a)
    && (a + b == 0.0 ==> acc == 0.0)
  }

  /** The accuracy among attempted answers, in counts: `a` correct and `b` incorrect
      answers give `a / (a + b)`, and 0 when nothing was attempted. */
  lemma AttemptedAccuracy(m: AggregateMetrics, a: real, b: real, c: real, n: real)
    requires MeansOf(m, a, b, c, n) && a >= 0.0 && b >= 0.0
    ensures AccuracyOfCounts(m.accuracyGivenAttempted, a, b)
  {
    var g := m.isGivenAttempted;
    assert g * n == a + b;
    if a + b > 0.0 {
      assert g > 0.0 by {
        if g <= 0.0 {
          NonPositiveProduct(g, n);
        }
      }
      var acc := m.accuracyGivenAttempted;
      assert acc * g == m.isCorrect;
      assert acc * (a + b) == acc * (g * n);
      assert acc * (g * n) == (acc * g) * n;
    } else {
      assert g == 0.0 by {
        if g != 0.0 {
          NonZeroProduct(g, n);
        }
      }
    }
  }

  lemma NonPositiveProduct(x: real, n: real)
    requires x <= 0.0 && n > 0.0
    ensures x * n <= 0.0
  {
  }

  lemma NonZeroProduct(x: real, n: real)
    requires x != 0.0 && n > 0.0
    ensures x * n != 0.0
  {
  }

  /** One sample of each outcome among three: each rate is a third, two thirds were
      attempted, half of those are correct, and `f1` is 2/5. */
  lemma OneOfEach(m: AggregateMetrics)
    requires MeansOf(m, 1.0, 1.0, 1.0, 3.0)
    ensures m.isCorrect == 1.0 / 3.0 && m.isIncorrect == 1.0 / 3.0 && m.isNotAttempted == 1.0 / 3.0
    ensures m.isGivenAttempted == 2.0 / 3.0
    ensures m.accuracyGivenAttempted == 0.5
    ensures F1(m.accuracyGivenAttempted, m.isCorrect) == 0.4
  {
    assert m.accuracyGivenAttempted * (2.0 / 3.0) == 1.0 / 3.0;
    var f := F1(0.5, 1.0 / 3.0);
    assert f * (5.0 / 6.0) == 1.0 / 3.0;
  }
}

/**
 * The exceedance probability of `src/utils/calcProbability.js`: the share, in
 * percent, of the usable samples that lie strictly above a cut-off, where the
 * cut-off is either an absolute value or a percentile of the samples.
 */
module Probability {
  import opened JsValues

  /** `threshold.type`: `"percentile"`, or anything else, which counts as absolute. */
  datatype ThresholdKind = Percentile | Absolute

  datatype Threshold = Threshold(kind: ThresholdKind, value: JsNum)

  /** `values.filter((v) => v !== null && !isNaN(v))`: the numbers, in their order. */
  function Clean(values: seq<JsNum>): (c: seq<real>)
    ensures |c| <= |values|
  {
    if |values| == 0 then []
    else (if values[0].Num? then [values[0].x] else []) + Clean(values[1..])
  }

  /** The cleaned samples are exactly the numbers among the values. */
  lemma {:induction false} CleanMembers(values: seq<JsNum>)
    ensures forall x :: x in Clean(values) <==> Num(x) in values
  {
    if |values| > 0 {
      assert values == [values[0]] + values[1..];
      CleanMembers(values[1..]);
    }
  }

  /** Cleaning looks at one entry at a time. */
  lemma CleanCons(v: JsNum, rest: seq<JsNum>)
    ensures Clean([v] + rest) == (if v.Num? then [v.x] else []) + Clean(rest)
  {
    assert ([v] + rest)[1..] == rest;
  }

  /** Cleaning works piecewise. */
  lemma {:induction false} CleanAppend(a: seq<JsNum>, b: seq<JsNum>)
    ensures Clean(a + b) == Clean(a) + Clean(b)
  {
    if |a| == 0 {
      assert a + b == b;
    } else {
      assert (a + b)[0] == a[0];
      assert (a + b)[1..] == a[1..] + b;
      CleanAppend(a[1..], b);
    }
  }

  /** `s.filter((v) => v > cut).length`, with JavaScript's `>`. */
  function CountAbove(s: seq<real>, cut: JsNum): (k: nat)
    ensures k <= |s|
  {
    if |s| == 0 then 0
    else (if Gt(Num(s[0]), cut) then 1 else 0) + CountAbove(s[1..], cut)
  }

  /** Counting looks at one sample at a time. */
  lemma CountAboveCons(x: real, s: seq<real>, cut: JsNum)
    ensures CountAbove([x] + s, cut) == (if Gt(Num(x), cut) then 1 else 0) + CountAbove(s, cut)
  {
    assert ([x] + s)[1..] == s;
  }

  /** `(k / n) * 100`. */
  function Percentage(k: nat, n: nat): (p: real)
    requires 0 < n && k <= n
    ensures 0.0 <= p <= 100.0
    ensures p == 0.0 <==> k == 0
    ensures p == 100.0 <==> k == n
  {
    PercentageRange(k, n);
    k as real / n as real * 100.0
  }

  lemma PercentageRange(k: nat, n: nat)
    requires 0 < n && k <= n
    ensures 0.0 <= k as real / n as real <= 1.0
    ensures k as real / n as real == 1.0 <==> k == n
  {
    var q, nr := k as real / n as real, n as real;
    assert q * nr == k as real;
    assert (1.0 - q) * nr == nr - k as real;
    FactorNonNegative(q, nr);
    FactorNonNegative(1.0 - q, nr);
    if k == n {
      FactorZero(1.0 - q, nr);
    }
  }

  /** A larger count gives a larger percentage. */
  lemma PercentageMonotone(k1: nat, k2: nat, n: nat)
    requires 0 < n && k1 <= k2 <= n
    ensures Percentage(k1, n) <= Percentage(k2, n)
  {
    var q1, q2 := k1 as real / n as real, k2 as real / n as real;
    assert q1 * n as real == k1 as real;
    assert q2 * n as real == k2 as real;
    assert (q2 - q1) * n as real == (k2 - k1) as real;
    FactorNonNegative(q2 - q1, n as real);
  }

  /** A count of at most `n * (1 - q/100)` samples is at most `100 - q` percent. */
  lemma PercentageAtMost(k: nat, n: nat, q: real)
    requires 0 < n && k <= n
    requires k as real <= n as real - q / 100.0 * n as real
    ensures Percentage(k, n) <= 100.0 - q
  {
    var f, m, g := k as real / n as real, n as real, 1.0 - q / 100.0;
    assert f * m == k as real;
    assert g * m == m - q / 100.0 * m;
    assert (g - f) * m >= 0.0;
    FactorNonNegative(g - f, m);
  }

  predicate Sorted(s: seq<real>) {
    forall i, j :: 0 <= i < j < |s| ==> s[i] <= s[j]
  }

  function Insert(x: real, s: seq<real>): (r: seq<real>)
    requires Sorted(s)
    ensures Sorted(r)
    ensures multiset(r) == multiset(s) + multiset{x}
    ensures |r| == |s| + 1
    ensures r[0] == if |s| == 0 || x <= s[0] then x else s[0]
  {
    if |s| == 0 || x <= s[0] then
      SortedCons(x, s);
      [x] + s
    else
      SortedTail(s);
      var t := Insert(x, s[1..]);
      InsertStep(x, s, t);
      [s[0]] + t
  }

  /** Putting the head back in front of the tail's insertion keeps the order and the contents. */
  lemma InsertStep(x: real, s: seq<real>, t: seq<real>)
    requires Sorted(s) && |s| > 0 && s[0] < x
    requires Sorted(t) && |t| > 0 && s[0] <= t[0]
    requires multiset(t) == multiset(s[1..]) + multiset{x}
    ensures Sorted([s[0]] + t)
    ensures multiset([s[0]] + t) == multiset(s) + multiset{x}
  {
    SortedCons(s[0], t);
    MultisetCons(s);
  }

  lemma SortedCons(h: real, t: seq<real>)
    requires Sorted(t) && (|t| > 0 ==> h <= t[0])
    ensures Sorted([h] + t)
  {
    forall i, j | 0 <= i < j < |t| + 1
      ensures ([h] + t)[i] <= ([h] + t)[j]
    {
      if i == 0 && j > 1 {
        assert t[0] <= t[j - 1];
      }
    }
  }

  lemma SortedTail(s: seq<real>)
    requires Sorted(s) && |s| > 0
    ensures Sorted(s[1..])
    ensures |s| > 1 ==> s[0] <= s[1]
  {
    forall i, j | 0 <= i < j < |s| - 1
      ensures s[1..][i] <= s[1..][j]
    {
      assert s[i + 1] <= s[j + 1];
    }
  }

  lemma MultisetCons(s: seq<real>)
    requires |s| > 0
    ensures multiset(s) == multiset{s[0]} + multiset(s[1..])
  {
    assert s == [s[0]] + s[1..];
  }

  /** `clean.sort((a, b) => a - b)`: ascending, and a permutation of the input. */
  function Sort(s: seq<real>): (r: seq<real>)
    ensures Sorted(r)
    ensures multiset(r) == multiset(s)
    ensures |r| == |s|
  {
    if |s| == 0 then []
    else
      assert s == [s[0]] + s[1..];
      Insert(s[0], Sort(s[1..]))
  }

  lemma {:induction false} CountAboveInsert(x: real, s: seq<real>, cut: JsNum)
    requires Sorted(s)
    ensures CountAbove(Insert(x, s), cut) == CountAbove(s, cut) + (if Gt(Num(x), cut) then 1 else 0)
  {
    if |s| > 0 && x > s[0] {
      CountAboveInsert(x, s[1..], cut);
    }
  }

  /** Sorting does not change how many samples exceed a cut-off. */
  lemma {:induction false} CountAboveSort(s: seq<real>, cut: JsNum)
    ensures CountAbove(Sort(s), cut) == CountAbove(s, cut)
  {
    if |s| > 0 {
      CountAboveSort(s[1..], cut);
      CountAboveInsert(s[0], Sort(s[1..]), cut);
    }
  }

  /**
   * `Math.min(Math.max(Math.floor((p / 100) * n), 0), n - 1)`: the percentile
   * position, clamped into the index range.
   */
  function PercentileIndex(q: real, n: nat): (i: nat)
    requires n > 0
    ensures i < n
  {
    var idx := (q / 100.0 * n as real).Floor;
    if idx < 0 then 0 else if idx > n - 1 then n - 1 else idx
  }

  /**
   * `clean[safeIdx]` on the sorted samples. A threshold value that coerces to
   * NaN makes the index NaN, and indexing with NaN yields `undefined`.
   */
  function PercentileCutoff(sorted: seq<real>, p: JsNum): (cut: JsNum)
    requires |sorted| > 0
    ensures cut.Num? || cut.Undefined?
    ensures cut.Num? <==> ToNumeric(p).Num?
  {
    match ToNumeric(p)
    case Num(q) => Num(sorted[PercentileIndex(q, |sorted|)])
    case _ => Undefined
  }

  /** `calcProbability(values, threshold)`. */
  function CalcProbability(values: seq<JsNum>, threshold: Threshold): (r: real)
    ensures 0.0 <= r <= 100.0
    ensures |Clean(values)| == 0 ==> r == 0.0
  {
    OfClean(Clean(values), threshold)
  }

  /** Everything after the cleaning step of `calcProbability`. */
  function OfClean(clean: seq<real>, threshold: Threshold): (r: real)
    ensures 0.0 <= r <= 100.0
    ensures |clean| == 0 ==> r == 0.0
  {
    if |clean| == 0 then 0.0
    else match threshold.kind
      case Percentile =>
        var sorted := Sort(clean);
        Percentage(CountAbove(sorted, PercentileCutoff(sorted, threshold.value)), |clean|)
      case Absolute =>
        Percentage(CountAbove(clean, threshold.value), |clean|)
  }

  /** Cleaning drops a `null`, `undefined` or `NaN` entry wherever it stands. */
  lemma CleanIgnoresNonNumber(values: seq<JsNum>, i: nat, v: JsNum)
    requires i <= |values| && !v.Num?
    ensures Clean(values[..i] + [v] + values[i..]) == Clean(values)
  {
    CleanSkip(values[..i], v, values[i..]);
    SplitJoin(values, i);
  }

  lemma SplitJoin(s: seq<JsNum>, i: nat)
    requires i <= |s|
    ensures s[..i] + s[i..] == s
  {
  }

  /** Dropping one non-number between two stretches leaves the cleaned samples alone. */
  lemma CleanSkip(a: seq<JsNum>, v: JsNum, b: seq<JsNum>)
    requires !v.Num?
    ensures Clean(a + [v] + b) == Clean(a + b)
  {
    CleanAppend(a + [v], b);
    CleanAppend(a, [v]);
    CleanDropsNonNumber(v);
    assert Clean(a + [v]) == Clean(a);
    CleanAppend(a, b);
  }

  /** A lone non-number cleans to nothing. */
  lemma CleanDropsNonNumber(v: JsNum)
    requires !v.Num?
    ensures Clean([v]) == []
  {
    CleanCons(v, []);
    assert Clean([]) == [];
  }

  /** A `null`, `undefined` or `NaN` entry, wherever it stands, never changes the result. */
  lemma NonNumbersIgnored(values: seq<JsNum>, i: nat, v: JsNum, threshold: Threshold)
    requires i <= |values| && !v.Num?
    ensures CalcProbability(values[..i] + [v] + values[i..], threshold) == CalcProbability(values, threshold)
  {
    CleanIgnoresNonNumber(values, i, v);
  }

  lemma {:induction false} CountAboveExtremes(s: seq<real>, t: real)
    ensures (forall k :: 0 <= k < |s| ==> s[k] <= t) ==> CountAbove(s, Num(t)) == 0
    ensures (forall k :: 0 <= k < |s| ==> s[k] > t) ==> CountAbove(s, Num(t)) == |s|
  {
    if |s| > 0 {
      CountAboveExtremes(s[1..], t);
    }
  }

  /** Raising the cut-off never raises the count. */
  lemma {:induction false} CountAboveAntitone(s: seq<real>, t1: real, t2: real)
    requires t1 <= t2
    ensures CountAbove(s, Num(t2)) <= CountAbove(s, Num(t1))
  {
    if |s| > 0 {
      CountAboveAntitone(s[1..], t1, t2);
    }
  }

  /**
   * Absolute cut-off: the exceedance is strict, so when no sample lies above
   * the threshold (in particular when the samples equal it) the result is 0,
   * and when every sample lies above it the result is 100.
   */
  lemma AbsoluteExtremes(values: seq<JsNum>, t: real)
    requires |Clean(values)| > 0
    ensures (forall x :: Num(x) in values ==> x <= t) ==>
      CalcProbability(values, Threshold(Absolute, Num(t))) == 0.0
    ensures (forall x :: Num(x) in values ==> x > t) ==>
      CalcProbability(values, Threshold(Absolute, Num(t))) == 100.0
  {
    var c := Clean(values);
    CleanMembers(values);
    assert forall k :: 0 <= k < |c| ==> c[k] in c;
    CountAboveExtremes(c, t);
  }

  /** Absolute cut-off: the result does not grow as the threshold grows. */
  lemma AbsoluteAntitone(values: seq<JsNum>, t1: real, t2: real)
    requires t1 <= t2
    ensures CalcProbability(values, Threshold(Absolute, Num(t2)))
         <= CalcProbability(values, Threshold(Absolute, Num(t1)))
  {
    var c := Clean(values);
    if |c| > 0 {
      CountAboveAntitone(c, t1, t2);
      PercentageMonotone(CountAbove(c, Num(t2)), CountAbove(c, Num(t1)), |c|);
    }
  }

  /** A threshold that coerces to NaN (`undefined`, `NaN`) is exceeded by nothing. */
  lemma NaNThresholdGivesZero(values: seq<JsNum>, kind: ThresholdKind, v: JsNum)
    requires v.Undefined? || v.NaN?
    ensures CalcProbability(values, Threshold(kind, v)) == 0.0
  {
    var c := Clean(values);
    if |c| > 0 {
      CountAboveExtremesNaN(c, v);
      CountAboveExtremesNaN(Sort(c), Undefined);
    }
  }

  lemma {:induction false} CountAboveExtremesNaN(s: seq<real>, cut: JsNum)
    requires ToNumeric(cut).NaN?
    ensures CountAbove(s, cut) == 0
  {
    if |s| > 0 {
      CountAboveExtremesNaN(s[1..], cut);
    }
  }

  /** Percentile cut-off: the cut-off is always one of the usable samples. */
  lemma PercentileCutoffIsSample(values: seq<JsNum>, p: real)
    requires |Clean(values)| > 0
    ensures PercentileCutoff(Sort(Clean(values)), Num(p)).Num?
    ensures Num(PercentileCutoff(Sort(Clean(values)), Num(p)).x) in values
  {
    var c := Clean(values);
    var sorted := Sort(c);
    var x := sorted[PercentileIndex(p, |sorted|)];
    assert x in multiset(sorted);
    assert x in c;
    CleanMembers(values);
  }

  /** In a sorted sequence, at most the elements after position i exceed s[i]. */
  lemma {:induction false} CountAboveSortedElement(s: seq<real>, i: nat)
    requires Sorted(s) && i < |s|
    ensures CountAbove(s, Num(s[i])) <= |s| - 1 - i
  {
    if i == 0 {
      assert !Gt(Num(s[0]), Num(s[0]));
    } else {
      assert s[0] <= s[i];
      assert s[1..][i - 1] == s[i];
      CountAboveSortedElement(s[1..], i - 1);
    }
  }

  /** Percentile cut-off: p >= 100 selects the largest sample, which nothing exceeds. */
  lemma PercentileFullGivesZero(values: seq<JsNum>, p: real)
    requires p >= 100.0
    ensures CalcProbability(values, Threshold(Percentile, Num(p))) == 0.0
  {
    var c := Clean(values);
    if |c| > 0 {
      var n := |c|;
      var sorted := Sort(c);
      PercentileIndexFull(p, n);
      assert PercentileCutoff(sorted, Num(p)) == Num(sorted[n - 1]);
      CountAboveSortedElement(sorted, n - 1);
      assert CountAbove(sorted, Num(sorted[n - 1])) == 0;
      assert OfClean(c, Threshold(Percentile, Num(p))) == Percentage(0, n);
    }
  }

  /** A percentile of 100 or more indexes the last sample. */
  lemma PercentileIndexFull(p: real, n: nat)
    requires p >= 100.0 && n > 0
    ensures PercentileIndex(p, n) == n - 1
  {
    MulNonNegative(p / 100.0 - 1.0, n as real);
    assert p / 100.0 * n as real >= n as real;
  }

  /** The clamped index is at least the unclamped percentile position minus one, or the last index. */
  lemma PercentileIndexBound(q: real, n: nat)
    requires n > 0 && 0.0 <= q
    ensures var i := PercentileIndex(q, n);
      i == n - 1 || (i as real > q / 100.0 * n as real - 1.0)
  {
    assert 0.0 <= q / 100.0 * n as real;
  }

  /** Percentile cut-off: for p in [0, 100] at most 100 - p percent of the samples exceed it. */
  lemma PercentileBound(values: seq<JsNum>, p: real)
    requires 0.0 <= p <= 100.0
    ensures CalcProbability(values, Threshold(Percentile, Num(p))) <= 100.0 - p
  {
    var c := Clean(values);
    if |c| > 0 {
      var n := |c|;
      var sorted := Sort(c);
      var i := PercentileIndex(p, n);
      CountAboveSortedElement(sorted, i);
      var k := CountAbove(sorted, Num(sorted[i]));
      assert CalcProbability(values, Threshold(Percentile, Num(p))) == Percentage(k, n);
      PercentileIndexBound(p, n);
      if i == n - 1 {
        assert k == 0;
      } else {
        assert k as real <= n as real - 1.0 - i as real;
        PercentageAtMost(k, n, p);
      }
    }
  }
}

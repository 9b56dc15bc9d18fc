/**
 The performance gate: percentiles with bootstrap intervals, and the rule that calls a series
 a regression. Floats are modelled as reals.
 */
module Gate {
  import opened Prelude
  import opened Sorting

  predicate RealLe(a: real, b: real) { a <= b }

  function Ordered(values: seq<real>): (s: seq<real>)
    ensures |s| == |values|
  {
    Sort(RealLe, values)
  }

  lemma {:induction false} OrderedSorts(values: seq<real>)
    ensures forall i, j :: 0 <= i <= j < |values| ==> Ordered(values)[i] <= Ordered(values)[j]
    ensures multiset(Ordered(values)) == multiset(values)
    ensures forall x :: x in Ordered(values) <==> x in values
  {
    SortSorts(RealLe, values);
    SortPermutes(RealLe, values);
    SameElements(Ordered(values), values);
    assert forall i, j :: 0 <= i < j < |values| ==> RealLe(Ordered(values)[i], Ordered(values)[j]);
  }

  function AtMost(x: real): real -> bool { (y: real) => y <= x }
  function AtLeast(x: real): real -> bool { (y: real) => y >= x }

  /** The element of rank `i` is at most `x` exactly when more than `i` elements are. */
  lemma {:induction false} RankAtMost(values: seq<real>, i: nat, x: real)
    requires i < |values|
    ensures Ordered(values)[i] <= x <==> Count(AtMost(x), values) > i
  {
    var s := Ordered(values);
    OrderedSorts(values);
    CountPermutes(AtMost(x), s, values);
    assert s == s[..i] + s[i..] == s[..i + 1] + s[i + 1..];
    if s[i] <= x {
      CountAppend(AtMost(x), s[..i + 1], s[i + 1..]);
      CountAll(AtMost(x), s[..i + 1]);
    } else {
      CountAppend(AtMost(x), s[..i], s[i..]);
      CountNone(AtMost(x), s[i..]);
    }
  }

  lemma {:induction false} CountsSplit(values: seq<real>, x: real, y: real)
    requires x < y
    ensures Count(AtMost(x), values) + Count(AtLeast(y), values) <= |values|
  {
    if values == [] {
    } else {
      CountsSplit(values[1..], x, y);
    }
  }

  /** A lower bound on the element of rank `i`, from how many elements reach it. */
  lemma {:induction false} RankAtLeast(values: seq<real>, i: nat, x: real)
    requires i < |values| && Count(AtLeast(x), values) >= |values| - i
    ensures Ordered(values)[i] >= x
  {
    var y := Ordered(values)[i];
    RankAtMost(values, i, y);
    if y < x {
      CountsSplit(values, y, x);
    }
  }

  /** Order statistics respect pointwise order. */
  lemma {:induction false} RanksAreMonotone(a: seq<real>, b: seq<real>, i: nat)
    requires |a| == |b| && i < |a| && forall r :: 0 <= r < |a| ==> a[r] <= b[r]
    ensures Ordered(a)[i] <= Ordered(b)[i]
  {
    var y := Ordered(b)[i];
    RankAtMost(b, i, y);
    CountsBelow(a, b, y);
    RankAtMost(a, i, y);
  }

  lemma {:induction false} CountsBelow(a: seq<real>, b: seq<real>, y: real)
    requires |a| == |b| && forall r :: 0 <= r < |a| ==> a[r] <= b[r]
    ensures Count(AtMost(y), b) <= Count(AtMost(y), a)
  {
    if a == [] {
    } else {
      CountsBelow(a[1..], b[1..], y);
    }
  }

  // ---- percentiles -------------------------------------------------------------------

  /** Python's `round`: to the nearest integer, a half to the even one. */
  function Round(x: real): int {
    var below := x.Floor;
    var part := x - below as real;
    if part < 0.5 then below
    else if part > 0.5 then below + 1
    else if below % 2 == 0 then below else below + 1
  }

  lemma {:induction false} RoundIsMonotone(x: real, y: real)
    requires x <= y
    ensures Round(x) <= Round(y)
  {
  }

  /** The nearest rank, kept inside a list of `n`. */
  function NearestRank(q: real, n: nat): (i: nat)
    requires n > 0
    ensures i < n
  {
    Clamp(Round(Scaled(q, n - 1)), n)
  }

  /** `min(n - 1, max(0, rank))` */
  function Clamp(rank: int, n: nat): (i: nat)
    requires n > 0
    ensures i < n
  {
    var floored := if rank < 0 then 0 else rank;
    if floored < n - 1 then floored else n - 1
  }

  function Percentile(values: seq<real>, q: real): (p: real) {
    if values == [] then 0.0 else Ordered(values)[NearestRank(q, |values|)]
  }

  function Scaled(q: real, n: int): real {
    q * n as real
  }

  lemma {:induction false} ScaledIsMonotone(p: real, q: real, n: nat)
    requires p <= q
    ensures Scaled(p, n) <= Scaled(q, n)
  {
  }

  lemma {:induction false} RankIsMonotone(p: real, q: real, n: nat)
    requires p <= q && n > 0
    ensures NearestRank(p, n) <= NearestRank(q, n)
  {
    ScaledIsMonotone(p, q, n - 1);
    RoundIsMonotone(Scaled(p, n - 1), Scaled(q, n - 1));
    assert Clamp(Round(Scaled(p, n - 1)), n) <= Clamp(Round(Scaled(q, n - 1)), n);
  }

  /** A percentile is one of the samples, and grows with the quantile. */
  lemma {:induction false} PercentilesAreOrdered(values: seq<real>, p: real, q: real)
    requires values != [] && p <= q
    ensures Percentile(values, p) <= Percentile(values, q) && Percentile(values, p) in values && Percentile(values, q) in values
  {
    RankIsMonotone(p, q, |values|);
    OrderedSorts(values);
    assert Ordered(values)[NearestRank(q, |values|)] in Ordered(values);
    assert Ordered(values)[NearestRank(p, |values|)] in Ordered(values);
  }

  /** The integer nearest to `x`, and of two as near the even one. */
  ghost predicate IsNearest(x: real, r: int) {
    && x - 0.5 <= r as real <= x + 0.5
    && ((r as real == x - 0.5 || r as real == x + 0.5) ==> r % 2 == 0)
  }

  /** So many of the values are at most `p` that it is not below the one of rank `r`, and so many
      at least `p` that it is not above it. */
  ghost predicate HasRank(values: seq<real>, r: nat, p: real) {
    r < |values| && Count(AtMost(p), values) > r && Count(AtLeast(p), values) >= |values| - r
  }

  /** The value whose rank is nearest to `q` of the way from the least to the greatest. */
  ghost predicate IsPercentile(values: seq<real>, q: real, p: real) {
    if values == [] then p == 0.0
    else exists r: nat :: IsNearest(q * (|values| - 1) as real, r) && HasRank(values, r, p)
  }

  lemma {:induction false} RankedValue(values: seq<real>, i: nat)
    requires i < |values|
    ensures HasRank(values, i, Ordered(values)[i])
  {
    var s, p := Ordered(values), Ordered(values)[i];
    RankAtMost(values, i, p);
    OrderedSorts(values);
    CountPermutes(AtLeast(p), s, values);
    assert s == s[..i] + s[i..];
    CountAppend(AtLeast(p), s[..i], s[i..]);
    CountAll(AtLeast(p), s[i..]);
  }

  lemma {:induction false} ShareOfRanks(q: real, n: nat)
    requires 0.0 <= q <= 1.0
    ensures 0.0 <= q * n as real <= n as real
  {
  }

  lemma {:induction false} RoundIsNearest(x: real, n: nat)
    requires 0.0 <= x <= n as real
    ensures IsNearest(x, Round(x)) && 0 <= Round(x) <= n
  {
  }

  lemma {:induction false} NearestRankIs(q: real, n: nat)
    requires 0.0 <= q <= 1.0 && n > 0
    ensures IsNearest(q * (n - 1) as real, NearestRank(q, n))
  {
    ShareOfRanks(q, n - 1);
    assert Scaled(q, n - 1) == q * (n - 1) as real;
    RoundIsNearest(Scaled(q, n - 1), n - 1);
  }

  /** Which value a percentile is, told by counting the values at most and at least as large. */
  lemma {:induction false} PercentileIs(values: seq<real>, q: real)
    requires 0.0 <= q <= 1.0
    ensures IsPercentile(values, q, Percentile(values, q))
  {
    if values == [] {
    } else {
      NearestRankIs(q, |values|);
      RankedValue(values, NearestRank(q, |values|));
    }
  }

  lemma {:induction false} NearestIsOne(x: real, r: nat, r': nat)
    requires IsNearest(x, r) && IsNearest(x, r')
    ensures r == r'
  {
  }

  lemma {:induction false} OneRankOneValue(values: seq<real>, r: nat, p: real, p': real)
    requires HasRank(values, r, p) && HasRank(values, r, p')
    ensures p == p'
  {
    if p < p' {
      CountsSplit(values, p, p');
    } else if p' < p {
      CountsSplit(values, p', p);
    }
  }

  /** No two numbers are the same percentile of a list. */
  lemma {:induction false} PercentileIsOne(values: seq<real>, q: real, p: real, p': real)
    requires IsPercentile(values, q, p) && IsPercentile(values, q, p')
    ensures p == p'
  {
    if values == [] {
    } else {
      var x := q * (|values| - 1) as real;
      var r: nat :| IsNearest(x, r) && HasRank(values, r, p);
      var r': nat :| IsNearest(x, r') && HasRank(values, r', p');
      NearestIsOne(x, r, r');
      OneRankOneValue(values, r, p, p');
    }
  }

  /** Larger samples, pointwise, have a larger percentile. */
  lemma {:induction false} PercentileOfLarger(a: seq<real>, b: seq<real>, q: real)
    requires |a| == |b| && forall r :: 0 <= r < |a| ==> a[r] <= b[r]
    ensures Percentile(a, q) <= Percentile(b, q)
  {
    if a != [] {
      RanksAreMonotone(a, b, NearestRank(q, |a|));
    }
  }

  const PERCENTILES := [0.50, 0.90, 0.95, 0.99]

  function Interval(estimates: seq<real>, confidence: real): (ends: (real, real)) {
    var tail := (1.0 - confidence) / 2.0;
    (Percentile(estimates, tail), Percentile(estimates, 1.0 - tail))
  }

  lemma {:induction false} IntervalIsOrdered(estimates: seq<real>, confidence: real, samples: seq<real>)
    requires confidence >= 0.0 && forall e :: e in estimates ==> e in samples
    ensures Interval(estimates, confidence).0 <= Interval(estimates, confidence).1
    ensures estimates != [] ==> Interval(estimates, confidence).0 in samples && Interval(estimates, confidence).1 in samples
  {
    var tail := (1.0 - confidence) / 2.0;
    assert tail <= 1.0 - tail;
    if estimates != [] {
      PercentilesAreOrdered(estimates, tail, 1.0 - tail);
    }
  }

  /** Each draw is as many samples, picked with replacement. */
  ghost predicate AreDraws(draws: seq<seq<real>>, samples: seq<real>) {
    forall d :: d in draws ==> |d| == |samples| && forall v :: v in d ==> v in samples
  }

  /** The estimates of a quantile: its percentile in each draw, in order. */
  function Estimates(draws: seq<seq<real>>, q: real): (estimates: seq<real>)
    ensures |estimates| == |draws| && forall r :: 0 <= r < |draws| ==> estimates[r] == Percentile(draws[r], q)
  {
    seq(|draws|, r requires 0 <= r < |draws| => Percentile(draws[r], q))
  }

  /** As many samples as there are, each picked at random. */
  method Draw(samples: seq<real>) returns (draw: seq<real>)
    requires samples != []
    ensures |draw| == |samples| && forall v :: v in draw ==> v in samples
  {
    draw := [];
    for n := 0 to |samples|
      invariant |draw| == n && forall v :: v in draw ==> v in samples
    {
      var pick :| 0 <= pick < |samples|;
      draw := draw + [samples[pick]];
    }
  }

  lemma {:induction false} EstimatesNext(draws: seq<seq<real>>, draw: seq<real>, q: real)
    ensures Estimates(draws + [draw], q) == Estimates(draws, q) + [Percentile(draw, q)]
  {
  }

  /** Every quantile's estimates over `resamples` draws, all read off the same draws. */
  method Resample(samples: seq<real>, quantiles: seq<real>, resamples: nat)
    returns (estimates: seq<seq<real>>, draws: seq<seq<real>>)
    requires samples != []
    ensures |draws| == resamples && AreDraws(draws, samples)
    ensures |estimates| == |quantiles| && forall i :: 0 <= i < |quantiles| ==> estimates[i] == Estimates(draws, quantiles[i])
  {
    draws := [];
    estimates := seq(|quantiles|, i => []);
    for r := 0 to resamples
      invariant |draws| == r && AreDraws(draws, samples)
      invariant |estimates| == |quantiles| && forall i :: 0 <= i < |quantiles| ==> estimates[i] == Estimates(draws, quantiles[i])
    {
      var draw := Draw(samples);
      for i := 0 to |quantiles|
        invariant |estimates| == |quantiles|
        invariant forall j :: 0 <= j < i ==> estimates[j] == Estimates(draws + [draw], quantiles[j])
        invariant forall j :: i <= j < |quantiles| ==> estimates[j] == Estimates(draws, quantiles[j])
      {
        EstimatesNext(draws, draw, quantiles[i]);
        estimates := estimates[i := estimates[i] + [Percentile(draw, quantiles[i])]];
      }
      draws := draws + [draw];
    }
  }

  datatype Summary = Summary(n: nat, percentiles: seq<real>, max: real, intervals: seq<(real, real)>)

  /** Percentiles in order below the maximum, each a sample, and an interval for each. */
  ghost predicate IsSummary(samples: seq<real>, resamples: nat, s: Summary) {
    && s.n == |samples| && |s.percentiles| == |s.intervals| == |PERCENTILES|
    && s.max in samples && (forall v :: v in samples ==> v <= s.max)
    && (forall i :: 0 <= i < 4 ==> s.percentiles[i] == Percentile(samples, PERCENTILES[i]) <= s.max)
    && (forall i, j :: 0 <= i <= j < 4 ==> s.percentiles[i] <= s.percentiles[j])
    && (forall i :: 0 <= i < 4 ==> s.intervals[i].0 <= s.intervals[i].1)
    && (resamples > 0 ==> forall i :: 0 <= i < 4 ==> s.intervals[i].0 in samples && s.intervals[i].1 in samples)
    && (forall i, j :: 0 <= i <= j < 4 ==> s.intervals[i].0 <= s.intervals[j].0 && s.intervals[i].1 <= s.intervals[j].1)
  }

  lemma {:induction false} EstimatesAreSamples(draws: seq<seq<real>>, samples: seq<real>, q: real)
    requires samples != [] && AreDraws(draws, samples)
    ensures forall e :: e in Estimates(draws, q) ==> e in samples
  {
    forall r | 0 <= r < |draws| ensures Estimates(draws, q)[r] in samples {
      assert draws[r] in draws;
      PercentilesAreOrdered(draws[r], q, q);
    }
  }

  lemma {:induction false} EstimatesInOrder(draws: seq<seq<real>>, samples: seq<real>, p: real, q: real)
    requires samples != [] && AreDraws(draws, samples) && p <= q
    ensures forall r :: 0 <= r < |draws| ==> Estimates(draws, p)[r] <= Estimates(draws, q)[r]
  {
    forall r | 0 <= r < |draws| ensures Estimates(draws, p)[r] <= Estimates(draws, q)[r] {
      assert draws[r] in draws;
      PercentilesAreOrdered(draws[r], p, q);
    }
  }

  /** A higher quantile has the higher interval, because both are read off the same draws. */
  lemma {:induction false} IntervalsAreOrdered(draws: seq<seq<real>>, samples: seq<real>, p: real, q: real, confidence: real)
    requires samples != [] && AreDraws(draws, samples) && p <= q
    ensures Interval(Estimates(draws, p), confidence).0 <= Interval(Estimates(draws, q), confidence).0
    ensures Interval(Estimates(draws, p), confidence).1 <= Interval(Estimates(draws, q), confidence).1
  {
    EstimatesInOrder(draws, samples, p, q);
    PercentileOfLarger(Estimates(draws, p), Estimates(draws, q), (1.0 - confidence) / 2.0);
    PercentileOfLarger(Estimates(draws, p), Estimates(draws, q), 1.0 - (1.0 - confidence) / 2.0);
  }

  /** What the code computes: each percentile, and the interval of each quantile's estimates. */
  ghost predicate Tabulated(samples: seq<real>, draws: seq<seq<real>>, s: Summary) {
    && s.n == |samples| && |s.percentiles| == |s.intervals| == |PERCENTILES|
    && (forall i :: 0 <= i < 4 ==> s.percentiles[i] == Percentile(samples, PERCENTILES[i]))
    && (forall i :: 0 <= i < 4 ==> s.intervals[i] == Interval(Estimates(draws, PERCENTILES[i]), 0.95))
    && s.max in samples && (forall v :: v in samples ==> v <= s.max)
  }

  lemma {:induction false} QuantilesAscend(i: nat, j: nat)
    requires i <= j < |PERCENTILES|
    ensures PERCENTILES[i] <= PERCENTILES[j]
  {
  }

  lemma {:induction false} PercentilesInOrder(samples: seq<real>, i: nat, j: nat)
    requires samples != [] && i <= j < 4
    ensures Percentile(samples, PERCENTILES[i]) <= Percentile(samples, PERCENTILES[j]) && Percentile(samples, PERCENTILES[j]) in samples
  {
    QuantilesAscend(i, j);
    PercentilesAreOrdered(samples, PERCENTILES[i], PERCENTILES[j]);
  }

  lemma {:induction false} IntervalsInOrder(samples: seq<real>, draws: seq<seq<real>>, i: nat, j: nat)
    requires samples != [] && AreDraws(draws, samples) && i <= j < 4
    ensures Interval(Estimates(draws, PERCENTILES[i]), 0.95).0 <= Interval(Estimates(draws, PERCENTILES[j]), 0.95).0
    ensures Interval(Estimates(draws, PERCENTILES[i]), 0.95).1 <= Interval(Estimates(draws, PERCENTILES[j]), 0.95).1
  {
    QuantilesAscend(i, j);
    IntervalsAreOrdered(draws, samples, PERCENTILES[i], PERCENTILES[j], 0.95);
  }

  /** Both ends of a quantile's interval: of its percentile in each draw, those that leave a
      fortieth of the draws on either side. */
  ghost predicate IsInterval(draws: seq<seq<real>>, q: real, ends: (real, real)) {
    exists estimates ::
      && AreEstimates(draws, q, estimates)
      && IsPercentile(estimates, 0.025, ends.0) && IsPercentile(estimates, 0.975, ends.1)
  }

  ghost predicate AreEstimates(draws: seq<seq<real>>, q: real, estimates: seq<real>) {
    |estimates| == |draws| && forall r :: 0 <= r < |draws| ==> IsPercentile(draws[r], q, estimates[r])
  }

  /** Each percentile is that of the samples, and each interval is read off the same draws. */
  ghost predicate IsMeasured(samples: seq<real>, draws: seq<seq<real>>, s: Summary) {
    && AreDraws(draws, samples) && |s.percentiles| == |s.intervals| == |PERCENTILES|
    && (forall i :: 0 <= i < |PERCENTILES| ==> IsPercentile(samples, PERCENTILES[i], s.percentiles[i]))
    && (forall i :: 0 <= i < |PERCENTILES| ==> IsInterval(draws, PERCENTILES[i], s.intervals[i]))
  }

  lemma {:induction false} IntervalIs(draws: seq<seq<real>>, q: real)
    requires 0.0 <= q <= 1.0
    ensures IsInterval(draws, q, Interval(Estimates(draws, q), 0.95))
  {
    var estimates := Estimates(draws, q);
    forall r | 0 <= r < |draws| ensures IsPercentile(draws[r], q, estimates[r]) {
      PercentileIs(draws[r], q);
    }
    PercentileIs(estimates, 0.025);
    PercentileIs(estimates, 0.975);
    assert AreEstimates(draws, q, estimates);
  }

  lemma {:induction false} SummaryMeasures(samples: seq<real>, draws: seq<seq<real>>, s: Summary)
    requires AreDraws(draws, samples)
    ensures Tabulated(samples, draws, s) ==> IsMeasured(samples, draws, s)
  {
    if Tabulated(samples, draws, s) {
      forall i | 0 <= i < |PERCENTILES|
        ensures IsPercentile(samples, PERCENTILES[i], s.percentiles[i]) && IsInterval(draws, PERCENTILES[i], s.intervals[i])
      {
        PercentileIs(samples, PERCENTILES[i]);
        IntervalIs(draws, PERCENTILES[i]);
      }
    }
  }

  lemma {:induction false} SummaryHolds(samples: seq<real>, draws: seq<seq<real>>, s: Summary)
    requires samples != [] && AreDraws(draws, samples)
    ensures Tabulated(samples, draws, s) ==> IsSummary(samples, |draws|, s)
  {
    if Tabulated(samples, draws, s) {
      forall i: nat, j: nat | i <= j < 4
        ensures s.percentiles[i] <= s.percentiles[j] <= s.max
        ensures s.intervals[i].0 <= s.intervals[j].0 && s.intervals[i].1 <= s.intervals[j].1
      {
        PercentilesInOrder(samples, i, j);
        IntervalsInOrder(samples, draws, i, j);
      }
      forall i | 0 <= i < 4
        ensures s.percentiles[i] <= s.max
        ensures s.intervals[i].0 <= s.intervals[i].1
        ensures |draws| > 0 ==> s.intervals[i].0 in samples && s.intervals[i].1 in samples
      {
        PercentilesInOrder(samples, i, i);
        EstimatesAreSamples(draws, samples, PERCENTILES[i]);
        IntervalIsOrdered(Estimates(draws, PERCENTILES[i]), 0.95, samples);
      }
    }
  }

  method Largest(samples: seq<real>) returns (max: real)
    requires samples != []
    ensures max in samples && forall v :: v in samples ==> v <= max
  {
    max := samples[0];
    for i := 0 to |samples|
      invariant max in samples && forall j :: 0 <= j < i ==> samples[j] <= max
    {
      max := Max(max, samples[i]);
    }
  }

  /** `summarize`: an empty series is refused. */
  method Summarize(samples: seq<real>, resamples: nat) returns (out: Outcome<Summary, string>)
    ensures samples == [] ==> out.Raised?
    ensures samples != [] ==> out.Ok? && IsSummary(samples, resamples, out.value)
    ensures samples != [] ==> exists draws :: |draws| == resamples && IsMeasured(samples, draws, out.value)
  {
    if samples == [] {
      return Raised("no samples to summarize");
    }
    var estimates, draws := Resample(samples, PERCENTILES, resamples);
    var max := Largest(samples);
    var s := Summary(|samples|,
                     seq(4, i requires 0 <= i < 4 => Percentile(samples, PERCENTILES[i])), max,
                     seq(4, i requires 0 <= i < |estimates| => Interval(estimates[i], 0.95)));
    SummaryHolds(samples, draws, s);
    SummaryMeasures(samples, draws, s);
    return Ok(s);
  }

  // ---- the regression rule -----------------------------------------------------------

  /** `statistics.median` */
  function Median(values: seq<real>): (m: real)
    requires values != []
  {
    var s, n := Ordered(values), |values|;
    if n % 2 == 1 then s[n / 2] else (s[n / 2 - 1] + s[n / 2]) / 2.0
  }

  lemma {:induction false} MiddleValues(values: seq<real>)
    requires values != []
    ensures var s, n := Ordered(values), |values|;
            HasRank(values, n / 2, s[n / 2]) && HasRank(values, (n - 1) / 2, s[(n - 1) / 2])
  {
    RankedValue(values, |values| / 2);
    RankedValue(values, (|values| - 1) / 2);
  }

  /** The median is the value in the middle, or half way between the two in the middle. */
  lemma {:induction false} MedianIs(values: seq<real>) returns (low: real, high: real)
    requires values != []
    ensures HasRank(values, (|values| - 1) / 2, low) && HasRank(values, |values| / 2, high)
    ensures 2.0 * Median(values) == low + high
  {
    MiddleValues(values);
    low, high := Ordered(values)[(|values| - 1) / 2], Ordered(values)[|values| / 2];
  }

  function Abs(x: real): real {
    if x < 0.0 then -x else x
  }

  function Deviations(values: seq<real>, centre: real): (d: seq<real>)
    ensures |d| == |values| && forall i :: 0 <= i < |d| ==> d[i] == Abs(values[i] - centre)
  {
    seq(|values|, i requires 0 <= i < |values| => Abs(values[i] - centre))
  }

  /** The median absolute deviation from the median. */
  function Mad(values: seq<real>): (d: real)
    requires values != []
  {
    Median(Deviations(values, Median(values)))
  }

  /** How far from `centre` each value is. */
  ghost predicate AreDistances(values: seq<real>, centre: real, distances: seq<real>) {
    |distances| == |values| && forall i :: 0 <= i < |values| ==>
      distances[i] == if values[i] >= centre then values[i] - centre else centre - values[i]
  }

  /** The deviation is the distance in the middle, or half way between the two in the middle. */
  lemma {:induction false} MadIs(values: seq<real>) returns (distances: seq<real>, low: real, high: real)
    requires values != []
    ensures AreDistances(values, Median(values), distances)
    ensures HasRank(distances, (|values| - 1) / 2, low) && HasRank(distances, |values| / 2, high)
    ensures 2.0 * Mad(values) == low + high
  {
    distances := Deviations(values, Median(values));
    low, high := MedianIs(distances);
  }

  const ROLLING_NIGHTS := 7
  const REGRESSION_RATIO := 1.20
  const MAD_MULTIPLIER := 3.0

  function Max(a: real, b: real): real {
    if a >= b then a else b
  }

  predicate IsRegression(current: real, history: seq<real>, floor: real)
    requires history != []
  {
    var centre := Median(history);
    current > REGRESSION_RATIO * centre && current - centre > Max(floor, MAD_MULTIPLIER * Mad(history))
  }

  datatype Verdict = NoHistory | Fine | Regression(again: real) | NotReproduced(again: real)

  /** Applies the rule to one series. `remeasure` is what measuring it again would say. */
  function Judge(current: real, history: seq<real>, remeasure: () -> real, floor: real): (verdict: Verdict) {
    var recent := if |history| > ROLLING_NIGHTS then history[|history| - ROLLING_NIGHTS..] else history;
    if |recent| < ROLLING_NIGHTS then NoHistory
    else if !IsRegression(current, recent, floor) then Fine
    else if IsRegression(remeasure(), recent, floor) then Regression(remeasure())
    else NotReproduced(remeasure())
  }

  /** Measuring higher never turns a regression into none. */
  lemma {:induction false} RegressionIsMonotone(current: real, worse: real, history: seq<real>, floor: real)
    requires history != [] && current <= worse && IsRegression(current, history, floor)
    ensures IsRegression(worse, history, floor)
  {
  }

  /** A value that is not above the median by a fifth of it, by the floor, and by three
      deviations is no regression; any other is. */
  lemma {:induction false} RegressionIff(current: real, history: seq<real>, floor: real)
    requires history != []
    ensures IsRegression(current, history, floor)
            <==> && current > 1.2 * Median(history)
                 && current > Median(history) + floor
                 && current > Median(history) + 3.0 * Mad(history)
  {
  }

  /** Before the seventh night there is no verdict, and after it always one. */
  lemma {:induction false} SevenNights(current: real, history: seq<real>, remeasure: () -> real, floor: real)
    ensures Judge(current, history, remeasure, floor).NoHistory? <==> |history| < 7
  {
  }

  /** A regression is two measurements that both break the rule against the last seven nights;
      a second measurement is taken only when the first one breaks it; older nights do not count. */
  lemma {:induction false} VerdictMeaning(current: real, older: seq<real>, recent: seq<real>, remeasure: () -> real, floor: real)
    requires |recent| == ROLLING_NIGHTS
    ensures var verdict := Judge(current, older + recent, remeasure, floor);
            && (verdict.Regression? <==> IsRegression(current, recent, floor) && IsRegression(remeasure(), recent, floor))
            && (verdict.Regression? || verdict.NotReproduced? <==> IsRegression(current, recent, floor))
            && !verdict.NoHistory?
            && (verdict.Regression? || verdict.NotReproduced? ==> verdict.again == remeasure())
  {
  }

  function Within(low: real, high: real): real -> bool { (x: real) => low <= x <= high }

  lemma {:induction false} WithinCounts(values: seq<real>, low: real, high: real)
    ensures Count(Within(low, high), values) <= Count(AtMost(high), values)
    ensures Count(Within(low, high), values) <= Count(AtLeast(low), values)
  {
    CountMonotone(Within(low, high), AtMost(high), values);
    CountMonotone(Within(low, high), AtLeast(low), values);
  }

  /** A majority of an odd number of values, inside a range, holds the median inside it. */
  lemma {:induction false} MajorityHoldsTheMedian(values: seq<real>, low: real, high: real)
    requires |values| % 2 == 1 && 2 * Count(Within(low, high), values) > |values|
    ensures low <= Median(values) <= high
  {
    WithinCounts(values, low, high);
    RankAtMost(values, |values| / 2, high);
    RankAtLeast(values, |values| / 2, low);
  }

  lemma {:induction false} MajorityHoldsTheMad(values: seq<real>, low: real, high: real)
    requires |values| % 2 == 1 && 2 * Count(Within(low, high), values) > |values|
    ensures 0.0 <= Mad(values) <= high - low
  {
    MajorityHoldsTheMedian(values, low, high);
    var centre := Median(values);
    DeviationCounts(values, centre, low, high);
    MajorityHoldsTheMedian(Deviations(values, centre), 0.0, high - low);
  }

  lemma {:induction false} DeviationCounts(values: seq<real>, centre: real, low: real, high: real)
    requires low <= centre <= high
    ensures Count(Within(low, high), values) <= Count(Within(0.0, high - low), Deviations(values, centre))
  {
    if values == [] {
    } else {
      DeviationCounts(values[1..], centre, low, high);
      assert Deviations(values, centre)[1..] == Deviations(values[1..], centre);
    }
  }

  /** Nights that were not changed between two histories, all inside a range. */
  ghost predicate Unchanged(before: seq<real>, after: seq<real>, changed: set<nat>, low: real, high: real) {
    |before| == |after| && forall i :: 0 <= i < |before| && i !in changed ==> after[i] == before[i] && low <= before[i] <= high
  }

  lemma {:induction false} UnchangedCounts(before: seq<real>, after: seq<real>, changed: set<nat>, low: real, high: real, n: nat)
    requires Unchanged(before, after, changed, low, high) && n <= |after|
    ensures Count(Within(low, high), after[..n]) + |set i | i in changed && i < n| >= n
  {
    if n == 0 {
    } else {
      UnchangedCounts(before, after, changed, low, high, n - 1);
      assert after[..n] == after[..n - 1] + [after[n - 1]];
      CountAppend(Within(low, high), after[..n - 1], [after[n - 1]]);
      var less, more := set i | i in changed && i < n - 1, set i | i in changed && i < n;
      if n - 1 in changed {
        assert more == less + {n - 1};
      } else {
        assert more == less;
      }
    }
  }

  lemma {:induction false} UnchangedMajority(before: seq<real>, after: seq<real>, changed: set<nat>, low: real, high: real)
    requires Unchanged(before, after, changed, low, high) && 2 * |changed| < |after|
    ensures 2 * Count(Within(low, high), after) > |after|
  {
    UnchangedCounts(before, after, changed, low, high, |after|);
    assert after[..|after|] == after;
    var inside := set i | i in changed && i < |after|;
    assert changed == inside + (changed - inside);
  }

  /** Replacing any three of the seven nights keeps the median inside the range of the other
      four, and the deviation no larger than that range. */
  lemma {:induction false} ThreeNightsCannotMoveIt(before: seq<real>, after: seq<real>, changed: set<nat>, low: real, high: real)
    requires |before| == ROLLING_NIGHTS && |changed| <= 3 && Unchanged(before, after, changed, low, high)
    ensures low <= Median(after) <= high && 0.0 <= Mad(after) <= high - low
  {
    UnchangedMajority(before, after, changed, low, high);
    MajorityHoldsTheMedian(after, low, high);
    MajorityHoldsTheMad(after, low, high);
  }

  /** So three nights can neither hide a clear regression nor invent one. */
  lemma {:induction false} ThreeNightsCannotDecide(before: seq<real>, after: seq<real>, changed: set<nat>, low: real, high: real,
                                                   current: real, floor: real)
    requires |before| == ROLLING_NIGHTS && |changed| <= 3 && Unchanged(before, after, changed, low, high)
    ensures current > REGRESSION_RATIO * high && current - high > Max(floor, MAD_MULTIPLIER * (high - low))
            ==> IsRegression(current, after, floor)
    ensures current <= REGRESSION_RATIO * low || current - low <= floor ==> !IsRegression(current, after, floor)
  {
    ThreeNightsCannotMoveIt(before, after, changed, low, high);
  }
}

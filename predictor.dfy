/** The maintenance predictor (src/services/predictor.js): the next failure
    of a machine from the gaps between its failures, the parts it will need,
    the time-of-day, weekday and symptom patterns of its failures, and its
    risk score. "Now" is a parameter: a real day number (days since
    1970-01-01 UTC, the fraction being the time of day). */
module Predictor {
  import opened Common
  import opened Sequences
  import opened Schema
  import opened DataAnalyzer

  // ---------------------------------------------------------------------
  // Gaps between consecutive instants

  /** The differences between consecutive values, `xs[i] - xs[i - 1]` for
      `i` from 1: the `intervals` the predictor pushes in its loops. */
  function Gaps(xs: seq<real>): (r: seq<real>)
    ensures |r| == if xs == [] then 0 else |xs| - 1
    decreases |xs|
  {
    if |xs| <= 1 then [] else Gaps(xs[..|xs| - 1]) + [xs[|xs| - 1] - xs[|xs| - 2]]
  }

  lemma {:induction false} GapsAt(xs: seq<real>)
    ensures forall i :: 0 <= i < |Gaps(xs)| ==> Gaps(xs)[i] == xs[i + 1] - xs[i]
    decreases |xs|
  {
    if |xs| > 1 {
      var init := xs[..|xs| - 1];
      GapsAt(init);
      forall i | 0 <= i < |Gaps(xs)|
        ensures Gaps(xs)[i] == xs[i + 1] - xs[i]
      {
        if i < |Gaps(init)| {
          assert Gaps(xs)[i] == Gaps(init)[i] && init[i + 1] == xs[i + 1] && init[i] == xs[i];
        }
      }
    }
  }

  /** The loop `for (i = 1; i < xs.length; i++) intervals.push(xs[i] - xs[i - 1])`. */
  method ConsecutiveGaps(xs: seq<real>) returns (gaps: seq<real>)
    ensures gaps == Gaps(xs)
  {
    gaps := [];
    if xs == [] {
      return;
    }
    for i := 1 to |xs|
      invariant gaps == Gaps(xs[..i])
    {
      assert xs[..i + 1][..i] == xs[..i];
      gaps := gaps + [xs[i] - xs[i - 1]];
    }
    assert xs[..|xs|] == xs;
  }

  /** The gaps add up to the distance from the first value to the last. */
  lemma {:induction false} GapsTelescope(xs: seq<real>)
    requires xs != []
    ensures Sum(Gaps(xs)) == xs[|xs| - 1] - xs[0]
    decreases |xs|
  {
    if |xs| > 1 {
      GapsTelescope(xs[..|xs| - 1]);
      TelescopeStep(xs);
    }
  }

  lemma TelescopeStep(xs: seq<real>)
    requires |xs| > 1
    requires Sum(Gaps(xs[..|xs| - 1])) == xs[|xs| - 2] - xs[0]
    ensures Sum(Gaps(xs)) == xs[|xs| - 1] - xs[0]
  {
    SumAppend(Gaps(xs[..|xs| - 1]), xs[|xs| - 1] - xs[|xs| - 2]);
  }

  // ---------------------------------------------------------------------
  // Mean, variance and the weighted mean

  /** `intervals.reduce((a, b) => a + b, 0) / intervals.length`. */
  function Mean(xs: seq<real>): real
    requires xs != []
  {
    Sum(xs) / |xs| as real
  }

  /** The sum of the squared deviations from `m`. */
  function SquaredDeviations(xs: seq<real>, m: real): (r: real)
    ensures r >= 0.0
    decreases |xs|
  {
    if xs == [] then 0.0
    else
      var d := xs[|xs| - 1] - m;
      SquaredDeviations(xs[..|xs| - 1], m) + d * d
  }

  /** The population variance: the mean squared deviation from the mean. */
  function Variance(xs: seq<real>): (v: real)
    requires xs != []
    ensures v >= 0.0
  {
    SquaredDeviations(xs, Mean(xs)) / |xs| as real
  }

  /** The weight of the `i`-th interval is `i + 1`; the total weight of `n`
      intervals. */
  function TotalWeight(n: nat): (w: nat)
    ensures w >= n
  {
    if n == 0 then 0 else TotalWeight(n - 1) + n
  }

  lemma {:induction false} TotalWeightClosed(n: nat)
    ensures 2 * TotalWeight(n) == n * (n + 1)
  {
    if n > 0 {
      TotalWeightClosed(n - 1);
    }
  }

  /** `intervals.reduce((sum, val, i) => sum + val * weights[i], 0)`. */
  function WeightedSum(xs: seq<real>): real
    decreases |xs|
  {
    if xs == [] then 0.0 else WeightedSum(xs[..|xs| - 1]) + xs[|xs| - 1] * |xs| as real
  }

  /** The weighted moving average, later intervals weighing more. */
  function WeightedMean(xs: seq<real>): real
    requires xs != []
  {
    WeightedSum(xs) / TotalWeight(|xs|) as real
  }

  lemma ScaleBetween(lo: real, x: real, hi: real, w: real)
    requires lo <= x <= hi && w >= 0.0
    ensures lo * w <= x * w <= hi * w
  {
    assert (x - lo) * w >= 0.0;
    assert (hi - x) * w >= 0.0;
  }

  lemma {:induction false} WeightedSumBetween(xs: seq<real>, lo: real, hi: real)
    requires forall i :: 0 <= i < |xs| ==> lo <= xs[i] <= hi
    ensures lo * TotalWeight(|xs|) as real <= WeightedSum(xs) <= hi * TotalWeight(|xs|) as real
    decreases |xs|
  {
    if xs != [] {
      var init := xs[..|xs| - 1];
      var x := xs[|xs| - 1];
      var w := TotalWeight(|init|) as real;
      var n := |xs| as real;
      var a := WeightedSum(init);
      assert lo * w <= a <= hi * w by {
        assert forall i :: 0 <= i < |init| ==> init[i] == xs[i];
        WeightedSumBetween(init, lo, hi);
      }
      assert WeightedSum(xs) == a + x * n;
      assert TotalWeight(|xs|) as real == w + n;
      BetweenStep(a, w, x, n, lo, hi);
    }
  }

  lemma BetweenStep(a: real, w: real, x: real, n: real, lo: real, hi: real)
    requires lo * w <= a <= hi * w && lo <= x <= hi && n >= 0.0
    ensures lo * (w + n) <= a + x * n <= hi * (w + n)
  {
    ScaleBetween(lo, x, hi, n);
  }

  lemma QuotientWithin(lo: real, s: real, hi: real, w: real)
    requires w > 0.0 && lo * w <= s <= hi * w
    ensures lo <= s / w <= hi
  {
    var q := s / w;
    assert q * w == s;
    assert (q - lo) * w >= 0.0;
    assert (hi - q) * w >= 0.0;
  }

  /** The weighted mean lies between any lower and upper bound of the
      intervals, hence between the least and the greatest interval. */
  lemma WeightedMeanBetween(xs: seq<real>, lo: real, hi: real)
    requires xs != []
    requires forall i :: 0 <= i < |xs| ==> lo <= xs[i] <= hi
    ensures lo <= WeightedMean(xs) <= hi
  {
    WeightedSumBetween(xs, lo, hi);
    QuotientWithin(lo, WeightedSum(xs), hi, TotalWeight(|xs|) as real);
  }

  lemma {:induction false} ConstantSums(xs: seq<real>, c: real)
    requires forall i :: 0 <= i < |xs| ==> xs[i] == c
    ensures Sum(xs) == |xs| as real * c
    ensures SquaredDeviations(xs, c) == 0.0
    decreases |xs|
  {
    if xs != [] {
      var init := xs[..|xs| - 1];
      assert forall i :: 0 <= i < |init| ==> init[i] == xs[i];
      ConstantSums(init, c);
      assert xs[|xs| - 1] - c == 0.0;
      assert SquaredDeviations(xs, c) == SquaredDeviations(init, c) + 0.0 * 0.0;
      RealMulSucc(|init| as real, c);
    }
  }

  lemma RealMulSucc(a: real, b: real)
    ensures (a + 1.0) * b == a * b + b
  {
  }

  /** Equal intervals: the mean and the weighted mean are that interval and
      the variance is 0. */
  lemma ConstantIntervals(xs: seq<real>, c: real)
    requires xs != []
    requires forall i :: 0 <= i < |xs| ==> xs[i] == c
    ensures Mean(xs) == c && WeightedMean(xs) == c && Variance(xs) == 0.0
  {
    ConstantSums(xs, c);
    assert Mean(xs) == c;
    WeightedMeanBetween(xs, c, c);
  }

  /** The mean of the gaps between sorted instants is the whole span over
      the number of gaps. */
  lemma MeanGap(xs: seq<real>, gaps: seq<real>)
    requires |xs| >= 2 && gaps == Gaps(xs)
    ensures |gaps| == |xs| - 1 && Mean(gaps) * |gaps| as real == xs[|xs| - 1] - xs[0]
  {
    GapsTelescope(xs);
    MeanTimesCount(gaps);
  }

  lemma MeanTimesCount(xs: seq<real>)
    requires xs != []
    ensures Mean(xs) * |xs| as real == Sum(xs)
  {
  }

  // ---------------------------------------------------------------------
  // Rounded square roots

  /** `x < (k + 1/2)^2`: the square root of `x` rounds half up to at
      most `k`. */
  predicate RootAtMost(x: real, k: nat)
  {
    x < (k as real + 0.5) * (k as real + 0.5)
  }

  /** `Math.round(Math.sqrt(x))` for `x >= 0`, without the square root: the
      least `k` with `RootAtMost(x, k)`, searched upwards from 0. */
  function RoundedRoot(x: real): nat
    requires x >= 0.0
  {
    RootFrom(x, 0)
  }

  /** The search upwards from `k` that `RoundedRoot` runs. */
  function RootFrom(x: real, k: nat): nat
    requires x >= 0.0
    requires k > 0 ==> !RootAtMost(x, k - 1)
    decreases Ceil(x) - k
  {
    if RootAtMost(x, k) then k
    else
      assert k as real < Ceil(x) as real by { SquareAbove(k); }
      RootFrom(x, k + 1)
  }

  lemma {:induction false} RootFromBounds(x: real, k: nat)
    requires x >= 0.0
    requires k > 0 ==> !RootAtMost(x, k - 1)
    ensures var r := RootFrom(x, k); RootAtMost(x, r) && (r > 0 ==> !RootAtMost(x, r - 1))
    decreases Ceil(x) - k
  {
    if !RootAtMost(x, k) {
      assert k as real < Ceil(x) as real by { SquareAbove(k); }
      RootFromBounds(x, k + 1);
    }
  }

  /** `RoundedRoot(x)` is the integer `k` with
      `(k - 1/2)^2 <= x < (k + 1/2)^2`: the square root rounded half up. */
  lemma RoundedRootBounds(x: real)
    requires x >= 0.0
    ensures var k := RoundedRoot(x); RootAtMost(x, k) && (k > 0 ==> !RootAtMost(x, k - 1))
  {
    RootFromBounds(x, 0);
  }

  lemma RootAtMostMonotone(x: real, j: nat, k: nat)
    requires j <= k && RootAtMost(x, j)
    ensures RootAtMost(x, k)
  {
    SquareMonotone(j as real + 0.5, k as real + 0.5);
  }

  lemma SquareAbove(k: nat)
    ensures k as real < (k as real + 0.5) * (k as real + 0.5)
  {
    var a := k as real;
    assert (a + 0.5) * (a + 0.5) == a * a + a + 0.25;
    assert a * a >= 0.0;
  }

  lemma Positive(x: real, y: real)
    requires x > 0.0 && y > 0.0
    ensures x * y > 0.0
  {
  }

  lemma SquareMonotone(a: real, b: real)
    requires 0.0 <= a <= b
    ensures a * a <= b * b
  {
    assert b * b - a * a == (b - a) * (b + a);
  }

  lemma SquareStrict(a: real, b: real)
    requires 0.0 <= a < b
    ensures a * a < b * b
  {
    assert b * b - a * a == (b - a) * (b + a);
    Positive(b - a, b + a);
  }

  /** The two bounds of `RoundedRoot` single out one integer. */
  lemma RoundedRootUnique(x: real, k: nat)
    requires x >= 0.0
    requires RootAtMost(x, k) && (k > 0 ==> !RootAtMost(x, k - 1))
    ensures k == RoundedRoot(x)
  {
    var r := RoundedRoot(x);
    RoundedRootBounds(x);
    if r < k {
      RootAtMostMonotone(x, r, k - 1);
    } else if k < r {
      RootAtMostMonotone(x, k, r - 1);
    }
  }

  /** `RoundedRoot` of a square `y * y` is `Math.round(y)`: it is
      `Math.round(Math.sqrt(x))`. */
  lemma RoundedRootOfSquare(y: real)
    requires y >= 0.0
    ensures RoundedRoot(y * y) == Round(y)
  {
    var k := Round(y);
    SquareStrict(y, k as real + 0.5);
    if k > 0 {
      assert (k - 1) as real + 0.5 == k as real - 0.5;
      SquareMonotone(k as real - 0.5, y);
    }
    RoundedRootUnique(y * y, k);
  }

  // ---------------------------------------------------------------------
  // predictNextFailure

  /** The confidence of a prediction from the coefficient of variation
      `stdDev / avg` of the intervals, compared through squares:
      `sqrt(v) / avg < c` is `v < c^2 * avg^2` when `avg > 0`. A zero average
      gives `NaN` (or `Infinity`), which no comparison accepts; a negative
      one gives a coefficient of at most 0. */
  function Confidence(avg: real, variance: real): (c: int)
    ensures c == 90 || c == 70 || c == 50 || c == 30
    ensures avg == 0.0 ==> c == 30
  {
    if avg < 0.0 then 90
    else if avg == 0.0 then 30
    else if variance < 0.04 * (avg * avg) then 90
    else if variance < 0.16 * (avg * avg) then 70
    else if variance < 0.36 * (avg * avg) then 50
    else 30
  }

  /** For a given average interval, more spread never raises the confidence. */
  lemma ConfidenceMonotone(avg: real, v1: real, v2: real)
    requires v1 <= v2
    ensures Confidence(avg, v1) >= Confidence(avg, v2)
  {
  }

  /** Evenly spaced failures give the highest confidence. */
  lemma ConfidenceEven(avg: real)
    requires avg > 0.0
    ensures Confidence(avg, 0.0) == 90
  {
    Positive(avg, avg);
    assert Confidence(avg, 0.0) == if 0.0 < 0.04 * (avg * avg) then 90 else 30;
  }

  /** The instant of a failure, in days: `new Date(date + ' ' + time)`. */
  function Instant(rec: MaintenanceRecord): real
  {
    Timestamp(rec) / 86400.0
  }

  function Instants(recs: seq<MaintenanceRecord>): (r: seq<real>)
    ensures |r| == |recs|
    ensures forall i :: 0 <= i < |r| ==> r[i] == Instant(recs[i])
  {
    seq(|recs|, i requires 0 <= i < |recs| => Instant(recs[i]))
  }

  /** The records `predictNextFailure`, `predictPartRequirement` and
      `calculateRiskScore` look at: the machine's records on the given side
      when a side is given, all of them otherwise. */
  function MachineRecords(records: seq<MaintenanceRecord>, machine: string, side: Option<string>)
    : (r: seq<MaintenanceRecord>)
    ensures forall x :: x in r <==> x in records && x.machine == machine && (Truthy(side) ==> x.machineSide == side)
    ensures |r| == Count(records, (x: MaintenanceRecord) => x.machine == machine && (Truthy(side) ==> x.machineSide == side))
    ensures Descending(r, Timestamp)
  {
    var p := (x: MaintenanceRecord) => x.machine == machine && (Truthy(side) ==> x.machineSide == side);
    if Truthy(side) then
      FilterAgree(records, p, (x: MaintenanceRecord) => x.machine == machine && side.Some? && x.machineSide == side);
      RecordsByMachineAndSide(records, machine, side)
    else
      FilterAgree(records, p, (x: MaintenanceRecord) => x.machine == machine);
      RecordsByMachine(records, machine)
  }

  /** The outcome of `predictNextFailure`: no prediction with confidence 0,
      or the predicted date (a day number) with its interval and statistics. */
  datatype NextFailure =
    | NoPrediction(confidence: int)
    | Predicted(machine: string, machineSide: Option<string>, lastFailure: int, predictedDate: int,
        confidence: int, earliest: int, latest: int, totalFailures: nat, avgIntervalDays: int,
        weightedAvgDays: int, stdDeviation: nat, cvHundredths: Option<int>)

  /** 1.96 squared: the 95% half-width `1.96 * stdDev` is the square root
      of `3.8416 * variance`. */
  const CriticalSquared: real := 3.8416

  /** `coefficientOfVariation.toFixed(2)` in hundredths: the rounded
      `100 * sqrt(v) / |avg|`, written as the rounded root of its square
      `10000 * v / avg^2`, with the sign of `avg`. `None` when the average
      is zero and the quotient is `NaN` or `Infinity`. */
  function CvHundredths(avg: real, variance: real): (r: Option<int>)
    requires variance >= 0.0
    ensures r.None? <==> avg == 0.0
  {
    if avg == 0.0 then None
    else
      var a := if avg > 0.0 then avg else -avg;
      QuotientTwice(10000.0 * variance, a);
      var k: int := RoundedRoot(10000.0 * variance / a / a);
      if avg > 0.0 then Some(k) else Some(-k)
  }

  /** The prediction drawn from the last failure's date `last`, the
      intervals `iv` between the `n` failures (in days): the last date plus
      the rounded weighted mean interval, the confidence of the spread, and
      an interval of `Math.round(1.96 * stdDev)` days on either side. */
  function ForecastOf(machine: string, side: Option<string>, last: int, iv: seq<real>, n: nat): (p: NextFailure)
    requires iv != []
    ensures p.Predicted? && p.lastFailure == last && p.totalFailures == n
    ensures p.confidence == 90 || p.confidence == 70 || p.confidence == 50 || p.confidence == 30
    ensures p.earliest <= p.predictedDate <= p.latest
    ensures p.predictedDate - p.earliest == p.latest - p.predictedDate
    ensures p.predictedDate - p.lastFailure == p.weightedAvgDays
    ensures p.weightedAvgDays == Round(WeightedMean(iv)) && p.avgIntervalDays == Round(Mean(iv))
    ensures p.confidence == Confidence(Mean(iv), Variance(iv))
    ensures p.latest - p.predictedDate == RoundedRoot(CriticalSquared * Variance(iv))
    ensures p.stdDeviation == RoundedRoot(Variance(iv))
    ensures p.cvHundredths == CvHundredths(Mean(iv), Variance(iv))
  {
    var predicted := last + Round(WeightedMean(iv));
    var ci := RoundedRoot(CriticalSquared * Variance(iv));
    Predicted(machine, side, last, predicted, Confidence(Mean(iv), Variance(iv)),
      predicted - ci, predicted + ci, n, Round(Mean(iv)), Round(WeightedMean(iv)), RoundedRoot(Variance(iv)),
      CvHundredths(Mean(iv), Variance(iv)))
  }

  /** The confidence is read off the coefficient of variation `s / avg`,
      where `s` is the standard deviation: below 0.2 gives 90, below 0.4
      gives 70, below 0.6 gives 50, and 30 otherwise. */
  lemma ConfidenceOfSpread(avg: real, s: real)
    requires avg > 0.0 && s >= 0.0
    ensures Confidence(avg, s * s) ==
      if s < 0.2 * avg then 90 else if s < 0.4 * avg then 70 else if s < 0.6 * avg then 50 else 30
  {
    BelowIffSquare(s, 0.2, avg);
    BelowIffSquare(s, 0.4, avg);
    BelowIffSquare(s, 0.6, avg);
  }

  lemma BelowIffSquare(s: real, c: real, avg: real)
    requires s >= 0.0 && c > 0.0 && avg > 0.0
    ensures s < c * avg <==> s * s < (c * c) * (avg * avg)
  {
    assert (c * avg) * (c * avg) == (c * c) * (avg * avg);
    if s < c * avg {
      SquareStrict(s, c * avg);
    } else {
      SquareMonotone(c * avg, s);
    }
  }

  lemma QuotientNonNegative(t: real, a: real)
    requires t >= 0.0 && a > 0.0
    ensures t / a >= 0.0 && (t / a) * a == t
  {
    assert (t / a) * a == t;
  }

  /** Dividing twice by a positive `a` is dividing by its square. */
  lemma QuotientTwice(t: real, a: real)
    requires t >= 0.0 && a > 0.0
    ensures t / a / a >= 0.0
    ensures (t / a / a) * (a * a) == t
  {
    QuotientNonNegative(t, a);
    QuotientNonNegative(t / a, a);
    assert (t / a / a) * (a * a) == ((t / a / a) * a) * a;
  }

  lemma SquareOrder(x: real, y: real)
    requires x >= 0.0 && y >= 0.0
    ensures x < y <==> x * x < y * y
  {
    if x < y { SquareStrict(x, y); } else { SquareMonotone(y, x); }
  }

  lemma ScaleBySquare(q: real, h: real, x: real)
    requires x > 0.0
    ensures q < h * h ==> q * (x * x) < (h * h) * (x * x)
    ensures h * h <= q ==> (h * h) * (x * x) <= q * (x * x)
  {
    assert x * x > 0.0;
  }

  lemma ProductSquare(a: real, b: real)
    ensures (a * b) * (a * b) == (a * a) * (b * b)
  {
  }

  /** `q * avg^2 == t^2` and `q < h^2` give `t < h * avg`. */
  lemma RatioUpper(avg: real, t: real, q: real, h: real)
    requires avg > 0.0 && t >= 0.0 && h > 0.0
    requires q * (avg * avg) == t * t && q < h * h
    ensures t < h * avg
  {
    ScaleBySquare(q, h, avg);
    ProductSquare(h, avg);
    Positive(h, avg);
    SquareOrder(t, h * avg);
  }

  /** `q * avg^2 == t^2` and `l^2 <= q` give `l * avg <= t`. */
  lemma RatioLower(avg: real, t: real, q: real, l: real)
    requires avg > 0.0 && t >= 0.0 && l > 0.0
    requires q * (avg * avg) == t * t && l * l <= q
    ensures l * avg <= t
  {
    ScaleBySquare(q, l, avg);
    ProductSquare(l, avg);
    Positive(l, avg);
    SquareOrder(t, l * avg);
  }

  lemma QuotientBelow(t: real, hi: real, w: real)
    requires w > 0.0 && t < hi * w
    ensures t / w < hi
  {
    var q := t / w;
    assert q * w == t;
    assert (hi - q) * w > 0.0;
  }

  /** With `q * avg^2 == t^2`, the rounded root `k` of `q` brackets `t`
      between `(k - 1/2) * avg` and `(k + 1/2) * avg`. */
  lemma RootRatioBounds(avg: real, t: real, q: real)
    requires avg > 0.0 && t >= 0.0 && q >= 0.0 && q * (avg * avg) == t * t
    ensures var k := RoundedRoot(q); (k as real - 0.5) * avg <= t < (k as real + 0.5) * avg
  {
    var k := RoundedRoot(q);
    RoundedRootBounds(q);
    RatioUpper(avg, t, q, k as real + 0.5);
    if k > 0 {
      assert (k - 1) as real + 0.5 == k as real - 0.5;
      RatioLower(avg, t, q, k as real - 0.5);
    } else {
      Positive(0.5, avg);
    }
  }

  lemma RoundOfRatio(t: real, avg: real, k: int)
    requires avg > 0.0 && (k as real - 0.5) * avg <= t < (k as real + 0.5) * avg
    ensures Round(t / avg) == k
  {
    QuotientWithin(k as real - 0.5, t, k as real + 0.5, avg);
    QuotientBelow(t, k as real + 0.5, avg);
  }

  /** For a positive average, the coefficient of variation in hundredths is
      `Math.round(100 * s / avg)`: `(k - 1/2) * avg <= 100 * s < (k + 1/2) * avg`. */
  lemma CvOfSpread(avg: real, v: real, s: real)
    requires avg > 0.0 && s >= 0.0 && s * s == v
    ensures CvHundredths(avg, v).Some?
    ensures var k := CvHundredths(avg, v).value;
      (k as real - 0.5) * avg <= 100.0 * s < (k as real + 0.5) * avg
    ensures CvHundredths(avg, v) == Some(Round(100.0 * s / avg))
  {
    var t := 100.0 * s;
    var u := 10000.0 * v;
    QuotientTwice(u, avg);
    var q := u / avg / avg;
    assert t * t == u;
    RootRatioBounds(avg, t, q);
    var k := RoundedRoot(q);
    assert CvHundredths(avg, v) == Some(k);
    RoundOfRatio(t, avg, k);
  }

  /** The rounded statistics of a spread `s` with `s * s == v`. */
  lemma SpreadStatistics(avg: real, v: real, s: real)
    requires s >= 0.0 && s * s == v
    ensures RoundedRoot(v) == Round(s)
    ensures RoundedRoot(CriticalSquared * v) == Round(1.96 * s)
  {
    RoundedRootOfSquare(s);
    var y := 1.96 * s;
    assert CriticalSquared * v == y * y;
    RoundedRootOfSquare(y);
  }

  /** With `s` the standard deviation of the intervals (`s * s` is their
      variance), the statistics are `Math.round(s)`, the half-width of the
      interval is `Math.round(1.96 * s)`, and the coefficient of variation
      is `s / avg` in rounded hundredths; it is missing exactly when the
      average is zero. */
  lemma ForecastSpread(machine: string, side: Option<string>, last: int, iv: seq<real>, n: nat, s: real)
    requires iv != [] && s >= 0.0 && s * s == Variance(iv)
    ensures var p := ForecastOf(machine, side, last, iv, n);
      && p.stdDeviation == Round(s)
      && p.latest - p.predictedDate == p.predictedDate - p.earliest == Round(1.96 * s)
      && (p.cvHundredths.None? <==> Mean(iv) == 0.0)
      && (Mean(iv) > 0.0 ==> p.cvHundredths == Some(Round(100.0 * s / Mean(iv))))
  {
    SpreadStatistics(Mean(iv), Variance(iv), s);
    if Mean(iv) > 0.0 {
      CvOfSpread(Mean(iv), Variance(iv), s);
    }
  }

  /** The prediction drawn from the failures `sorted` (ascending, at least
      two): from the last one and the intervals between consecutive ones. */
  function Forecast(sorted: seq<MaintenanceRecord>, machine: string, side: Option<string>): NextFailure
    requires |sorted| >= 2
  {
    ForecastOf(machine, side, sorted[|sorted| - 1].date, Gaps(Instants(sorted)), |sorted|)
  }

  /** After an ascending sort by instant, the last record holds the latest
      date of all. */
  lemma LastIsLatest(recs: seq<MaintenanceRecord>, sorted: seq<MaintenanceRecord>)
    requires recs != [] && sorted == SortBy(recs, Timestamp)
    ensures sorted[|sorted| - 1].date == MaxOf(recs, RecordDate)
  {
    var last := sorted[|sorted| - 1];
    assert last in multiset(recs);
    forall i | 0 <= i < |recs|
      ensures recs[i].date <= last.date
    {
      assert recs[i] in multiset(sorted);
      var j :| 0 <= j < |sorted| && sorted[j] == recs[i];
      TimestampOrder(last, recs[i]);
    }
  }

  /** The intervals between failures sorted by instant are never negative. */
  lemma IntervalsNonNegative(sorted: seq<MaintenanceRecord>)
    requires Ascending(sorted, Timestamp)
    ensures forall i :: 0 <= i < |Gaps(Instants(sorted))| ==> Gaps(Instants(sorted))[i] >= 0.0
  {
    var xs := Instants(sorted);
    GapsAt(xs);
    forall i | 0 <= i < |Gaps(xs)|
      ensures Gaps(xs)[i] >= 0.0
    {
      assert Timestamp(sorted[i]) <= Timestamp(sorted[i + 1]);
    }
  }

  /** A forecast's last failure is the latest failure of the machine, and
      it counts all of them. */
  lemma ForecastLatest(recs: seq<MaintenanceRecord>, machine: string, side: Option<string>)
    requires |recs| >= 2
    ensures var p := Forecast(SortBy(recs, Timestamp), machine, side);
      p.lastFailure == MaxOf(recs, RecordDate) && p.totalFailures == |recs|
  {
    var sorted := SortBy(recs, Timestamp);
    var p := ForecastOf(machine, side, sorted[|sorted| - 1].date, Gaps(Instants(sorted)), |sorted|);
    assert Forecast(sorted, machine, side) == p;
    assert p.lastFailure == sorted[|sorted| - 1].date && p.totalFailures == |recs|;
    LastIsLatest(recs, sorted);
  }

  lemma RoundMonotone(x: real, y: real)
    requires x <= y
    ensures Round(x) <= Round(y)
  {
  }

  /** The predicted date lies between the last failure moved by the
      smallest and by the largest interval (each rounded), so never before
      the last failure. */
  lemma ForecastBetween(recs: seq<MaintenanceRecord>, machine: string, side: Option<string>, lo: real, hi: real)
    requires |recs| >= 2
    requires forall i :: 0 <= i < |Gaps(Instants(SortBy(recs, Timestamp)))| ==>
      lo <= Gaps(Instants(SortBy(recs, Timestamp)))[i] <= hi
    ensures var p := Forecast(SortBy(recs, Timestamp), machine, side);
      && p.lastFailure + Round(lo) <= p.predictedDate <= p.lastFailure + Round(hi)
      && p.predictedDate >= p.lastFailure
  {
    var sorted := SortBy(recs, Timestamp);
    var iv := Gaps(Instants(sorted));
    WeightedMeanBetween(iv, lo, hi);
    RoundMonotone(lo, WeightedMean(iv));
    RoundMonotone(WeightedMean(iv), hi);
    IntervalsNonNegative(sorted);
    WeightedMeanBetween(iv, 0.0, hi);
    RoundMonotone(0.0, WeightedMean(iv));
  }

  /** Evenly spaced failures, `c` days apart: the prediction is the last
      failure plus `Math.round(c)`, the interval around it is empty, and
      when `c` is positive the confidence is the highest with a coefficient
      of variation of 0. */
  lemma ForecastEven(recs: seq<MaintenanceRecord>, machine: string, side: Option<string>, c: real)
    requires |recs| >= 2
    requires forall i :: 0 <= i < |Gaps(Instants(SortBy(recs, Timestamp)))| ==>
      Gaps(Instants(SortBy(recs, Timestamp)))[i] == c
    ensures var p := Forecast(SortBy(recs, Timestamp), machine, side);
      && p.predictedDate == p.lastFailure + Round(c)
      && p.earliest == p.predictedDate == p.latest
      && p.stdDeviation == 0 && p.avgIntervalDays == Round(c)
      && (c > 0.0 ==> p.confidence == 90 && p.cvHundredths == Some(0))
  {
    var sorted := SortBy(recs, Timestamp);
    EvenStatistics(Gaps(Instants(sorted)), c);
  }

  /** The statistics of intervals that all equal `c`. */
  lemma EvenStatistics(iv: seq<real>, c: real)
    requires iv != [] && forall i :: 0 <= i < |iv| ==> iv[i] == c
    ensures Mean(iv) == c && WeightedMean(iv) == c && Variance(iv) == 0.0
    ensures RoundedRoot(Variance(iv)) == 0 && RoundedRoot(CriticalSquared * Variance(iv)) == 0
    ensures c > 0.0 ==> Confidence(Mean(iv), Variance(iv)) == 90
    ensures c > 0.0 ==> CvHundredths(Mean(iv), Variance(iv)) == Some(0)
  {
    ConstantIntervals(iv, c);
    SpreadStatistics(c, 0.0, 0.0);
    if c > 0.0 {
      ConfidenceEven(c);
      CvOfSpread(c, 0.0, 0.0);
    }
  }

  /** `predictNextFailure`: fewer than two failures give no prediction and
      confidence 0; otherwise the failures are sorted by instant, the
      intervals between them collected, and the prediction drawn from them. */
  method PredictNextFailure(records: seq<MaintenanceRecord>, machine: string, side: Option<string>)
    returns (p: NextFailure)
    ensures var recs := MachineRecords(records, machine, side);
      (|recs| < 2 ==> p == NoPrediction(0)) &&
      (|recs| >= 2 ==> p == Forecast(SortBy(recs, Timestamp), machine, side))
  {
    var recs := MachineRecords(records, machine, side);
    if |recs| < 2 {
      return NoPrediction(0);
    }
    var sorted := SortBy(recs, Timestamp);
    var intervals := ConsecutiveGaps(Instants(sorted));
    p := ForecastOf(machine, side, sorted[|sorted| - 1].date, intervals, |sorted|);
  }

  // ---------------------------------------------------------------------
  // predictPartRequirement

  /** One row of the join of `part_usage` with `parts` made for a record:
      the usage's part code, the part's name and the quantity, with the
      record's failure date. */
  datatype PartUse = PartUse(code: string, name: string, quantity: int, date: int)

  /** The join of the usages of `rec` with the part of their code, in table
      order: a usage whose code names no part drops out, and as part codes
      are unique each other usage joins exactly one part. */
  function JoinedUses(rec: MaintenanceRecord, parts: seq<Part>, usages: seq<PartUsage>): (r: seq<PartUse>)
    ensures forall w :: w in r ==> w.date == rec.date
    ensures forall w :: w in r ==> PartByCode(parts, w.code).Some? && w.name == PartByCode(parts, w.code).value.name
    decreases |usages|
  {
    if usages == [] then []
    else
      var u := usages[|usages| - 1];
      var rest := JoinedUses(rec, parts, usages[..|usages| - 1]);
      match PartByCode(parts, u.code)
      case Some(part) =>
        if u.maintenanceId == rec.id then rest + [PartUse(u.code, part.name, u.quantity, rec.date)] else rest
      case None => rest
  }

  /** A usage appears in the join of `rec` exactly when it belongs to `rec`
      and its code names a part. */
  lemma {:induction false} JoinedUsesMember(rec: MaintenanceRecord, parts: seq<Part>, usages: seq<PartUsage>,
    u: PartUsage)
    requires u in usages && u.maintenanceId == rec.id && PartByCode(parts, u.code).Some?
    ensures PartUse(u.code, PartByCode(parts, u.code).value.name, u.quantity, rec.date) in JoinedUses(rec, parts, usages)
    decreases |usages|
  {
    var init := usages[..|usages| - 1];
    if u != usages[|usages| - 1] {
      assert usages == init + [usages[|usages| - 1]];
      JoinedUsesMember(rec, parts, init, u);
    }
  }

  /** The joined rows of each of `recs` in turn: the rows `forEach` visits. */
  function UsesOf(recs: seq<MaintenanceRecord>, parts: seq<Part>, usages: seq<PartUsage>): seq<PartUse>
    decreases |recs|
  {
    if recs == [] then [] else UsesOf(recs[..|recs| - 1], parts, usages) + JoinedUses(recs[|recs| - 1], parts, usages)
  }

  lemma UsesOfAppend(recs: seq<MaintenanceRecord>, rec: MaintenanceRecord, parts: seq<Part>, usages: seq<PartUsage>)
    ensures UsesOf(recs + [rec], parts, usages) == UsesOf(recs, parts, usages) + JoinedUses(rec, parts, usages)
  {
    assert (recs + [rec])[..|recs|] == recs;
  }

  /** Every joined row carries the name of the part of its code. */
  lemma {:induction false} UsesOfNamed(recs: seq<MaintenanceRecord>, parts: seq<Part>, usages: seq<PartUsage>)
    ensures forall w :: w in UsesOf(recs, parts, usages) ==>
      PartByCode(parts, w.code).Some? && w.name == PartByCode(parts, w.code).value.name
    decreases |recs|
  {
    if recs != [] {
      UsesOfNamed(recs[..|recs| - 1], parts, usages);
    }
  }

  function UseCode(w: PartUse): string { w.code }

  function UseQuantity(w: PartUse): int { w.quantity }

  /** The entry of `partUsageMap` for one part: its name, `total_used` and
      `usage_dates`. */
  datatype PartAccum = PartAccum(name: string, totalUsed: int, usageDates: seq<int>)

  /** The entry a part starts from before its first row. */
  const NoUse := PartAccum("", 0, [])

  /** One row added to its part's entry: the first row sets the name, each
      adds its quantity and pushes the record's date. */
  function AddUse(acc: PartAccum, w: PartUse): PartAccum
  {
    PartAccum(if acc.usageDates == [] then w.name else acc.name, acc.totalUsed + w.quantity, acc.usageDates + [w.date])
  }

  /** The dates of the rows `ms`, in order. */
  function UseDates(ms: seq<PartUse>): (r: seq<int>)
    ensures |r| == |ms| && forall i :: 0 <= i < |ms| ==> r[i] == ms[i].date
  {
    seq(|ms|, i requires 0 <= i < |ms| => ms[i].date)
  }

  /** A part's entry after its rows `ms`: the first row's name, the sum of
      the quantities and the dates in order. */
  lemma {:induction false} AccumOf(ms: seq<PartUse>)
    ensures FoldOf(ms, NoUse, AddUse) ==
      PartAccum(if ms == [] then "" else ms[0].name, SumOf(ms, UseQuantity), UseDates(ms))
    decreases |ms|
  {
    if ms != [] {
      var init := ms[..|ms| - 1];
      AccumOf(init);
      assert UseDates(ms) == UseDates(init) + [ms[|ms| - 1].date];
      if init != [] {
        assert init[0] == ms[0];
      }
    }
  }

  /** `partUsageMap`: one entry per part code, in the order the codes first
      appear among the joined rows. */
  function PartUsageGroups(recs: seq<MaintenanceRecord>, parts: seq<Part>, usages: seq<PartUsage>)
    : seq<(string, PartAccum)>
  {
    GroupedOf(UsesOf(recs, parts, usages), UseCode, NoUse, AddUse)
  }

  /** Each entry of `partUsageMap` belongs to a code used on the machine:
      its name is the part's, its total the sum of the quantities of the
      code's rows and its dates theirs, one per row, in order. */
  lemma PartUsageGroupsMeaning(recs: seq<MaintenanceRecord>, parts: seq<Part>, usages: seq<PartUsage>, k: int)
    requires 0 <= k < |PartUsageGroups(recs, parts, usages)|
    ensures var uses := UsesOf(recs, parts, usages);
      var code := Keys(uses, UseCode)[k];
      var ms := Members(uses, UseCode, code);
      ms != [] && PartByCode(parts, code).Some? &&
      PartUsageGroups(recs, parts, usages)[k] ==
        (code, PartAccum(PartByCode(parts, code).value.name, SumOf(ms, UseQuantity), UseDates(ms)))
  {
    var uses := UsesOf(recs, parts, usages);
    var code := Keys(uses, UseCode)[k];
    var ms := Members(uses, UseCode, code);
    FoldsForAt(uses, UseCode, NoUse, AddUse, Keys(uses, UseCode), k);
    MembersNonEmpty(uses, UseCode, k);
    MembersIn(uses, UseCode, code);
    UsesOfNamed(recs, parts, usages);
    assert ms[0] in uses;
    AccumOf(ms);
  }

  /** Every entry of `partUsageMap` has at least one usage date. */
  predicate AllUsed(groups: seq<(string, PartAccum)>)
  {
    forall k :: 0 <= k < |groups| ==> groups[k].1.usageDates != []
  }

  lemma GroupsUsed(recs: seq<MaintenanceRecord>, parts: seq<Part>, usages: seq<PartUsage>)
    ensures AllUsed(PartUsageGroups(recs, parts, usages))
  {
    forall k | 0 <= k < |PartUsageGroups(recs, parts, usages)|
      ensures PartUsageGroups(recs, parts, usages)[k].1.usageDates != []
    {
      PartUsageGroupsMeaning(recs, parts, usages, k);
    }
  }

  /** One pass of the outer `forEach`: the joined rows of `rec` added to the
      entries filled from the records `done`. */
  method AddRecordUses(groups: seq<(string, PartAccum)>, ghost done: seq<MaintenanceRecord>, rec: MaintenanceRecord,
    parts: seq<Part>, usages: seq<PartUsage>) returns (next: seq<(string, PartAccum)>)
    requires Filled(groups, UsesOf(done, parts, usages), UseCode, NoUse, AddUse)
    ensures Filled(next, UsesOf(done + [rec], parts, usages), UseCode, NoUse, AddUse)
  {
    var rows := JoinedUses(rec, parts, usages);
    next := AccumulateAll(groups, UsesOf(done, parts, usages), rows, UseCode, NoUse, AddUse);
    UsesOfAppend(done, rec, parts, usages);
  }

  /** The two `forEach` loops of `predictPartRequirement`, filling
      `partUsageMap`. */
  method CollectPartUsage(recs: seq<MaintenanceRecord>, parts: seq<Part>, usages: seq<PartUsage>)
    returns (groups: seq<(string, PartAccum)>)
    ensures groups == PartUsageGroups(recs, parts, usages)
  {
    groups := [];
    for i := 0 to |recs|
      invariant Filled(groups, UsesOf(recs[..i], parts, usages), UseCode, NoUse, AddUse)
    {
      assert recs[..i + 1] == recs[..i] + [recs[i]];
      groups := AddRecordUses(groups, recs[..i], recs[i], parts, usages);
    }
    assert recs[..|recs|] == recs;
    assert Filled(groups, UsesOf(recs, parts, usages), UseCode, NoUse, AddUse);
  }

  function DayKey(d: int): real { d as real }

  function Day(d: int): int { d }

  function Reals(ds: seq<int>): (r: seq<real>)
    ensures |r| == |ds| && forall i :: 0 <= i < |ds| ==> r[i] == ds[i] as real
  {
    seq(|ds|, i requires 0 <= i < |ds| => ds[i] as real)
  }

  /** `avgDaysBetweenUsage`: the mean interval between the usage dates in
      ascending order, 0 for a single date. */
  function AverageGap(dates: seq<int>): real
  {
    MeanInterval(SortBy(dates, DayKey))
  }

  /** The mean interval between the ascending dates `sorted`. */
  function MeanInterval(sorted: seq<int>): real
  {
    if |sorted| > 1 then Mean(Gaps(Reals(sorted))) else 0.0
  }

  /** After an ascending sort the ends are the earliest and the latest. */
  lemma SortedEnds(dates: seq<int>)
    requires dates != []
    ensures var sorted := SortBy(dates, DayKey);
      sorted[0] == MinOf(dates, Day) && sorted[|sorted| - 1] == MaxOf(dates, Day)
  {
    var sorted := SortBy(dates, DayKey);
    var lo := MinOf(dates, Day);
    var hi := MaxOf(dates, Day);
    assert sorted[0] in multiset(dates) && sorted[|sorted| - 1] in multiset(dates);
    assert lo in multiset(sorted) && hi in multiset(sorted);
    var i :| 0 <= i < |sorted| && sorted[i] == lo;
    var j :| 0 <= j < |sorted| && sorted[j] == hi;
    assert DayKey(sorted[0]) <= DayKey(sorted[i]);
    assert DayKey(sorted[j]) <= DayKey(sorted[|sorted| - 1]);
  }

  /** The mean interval is positive exactly when the usages fall on more
      than one date. */
  lemma AverageGapPositive(dates: seq<int>)
    requires dates != []
    ensures AverageGap(dates) > 0.0 <==> MinOf(dates, Day) < MaxOf(dates, Day)
  {
    if |dates| > 1 {
      var xs := Reals(SortBy(dates, DayKey));
      var g := Gaps(xs);
      assert AverageGap(dates) == MeanInterval(SortBy(dates, DayKey)) == Mean(g);
      assert Sum(g) == (MaxOf(dates, Day) - MinOf(dates, Day)) as real by {
        GapsTelescope(xs);
        SortedEnds(dates);
      }
      MeanSign(g);
    } else {
      assert dates[0] == MinOf(dates, Day) == MaxOf(dates, Day);
    }
  }

  /** A mean is positive exactly when the total is. */
  lemma MeanSign(xs: seq<real>)
    requires xs != []
    ensures Mean(xs) > 0.0 <==> Sum(xs) > 0.0
  {
    var q := Mean(xs);
    var n := |xs| as real;
    assert q * n == Sum(xs);
    ProductSign(-q, n);
  }

  /** `total_used / totalDays`: the usage per day over `days` days. */
  function DailyRate(total: int, days: nat): real
    requires days > 0
  {
    total as real / days as real
  }

  /** One entry of `predictPartRequirement`; the daily rate is kept in
      ten-thousandths, as `toFixed(4)` prints it, and the dates are day
      numbers. */
  datatype PartForecast = PartForecast(partCode: string, namePart: string, historicalUsage: int,
    usageRateTenThousandths: int, predictedUsage: int, lastUsed: int, daysSinceLastUse: int,
    predictedNextUse: Option<int>, recommendedStock: int)

  /** The forecast for one part from its entry and the mean interval `gap`
      between its usages, over a history of `days` days, `forecastDays`
      ahead, at the instant `now`. The next use is today's date moved by the
      rounded difference between the mean interval and the days since the
      last use, when the mean interval is positive. */
  function PartForecastOf(code: string, acc: PartAccum, gap: real, days: nat, forecastDays: int, now: real)
    : (f: PartForecast)
    requires days > 0 && acc.usageDates != []
    ensures f.partCode == code && f.namePart == acc.name && f.historicalUsage == acc.totalUsed
    ensures var rate := DailyRate(acc.totalUsed, days);
      rate * 10000.0 - 0.5 < f.usageRateTenThousandths as real <= rate * 10000.0 + 0.5 &&
      rate * forecastDays as real <= f.predictedUsage as real < rate * forecastDays as real + 1.0
    ensures f.lastUsed == MaxOf(acc.usageDates, Day)
    ensures now - f.lastUsed as real - 0.5 < f.daysSinceLastUse as real <= now - f.lastUsed as real + 0.5
    ensures f.predictedNextUse.Some? <==> gap > 0.0
    ensures f.predictedNextUse.Some? ==>
      f.predictedNextUse.value == Floor(now) + Round(gap - (now - f.lastUsed as real))
    ensures f.predictedNextUse.Some? ==>
      f.lastUsed as real + gap - 1.5 < f.predictedNextUse.value as real <= f.lastUsed as real + gap + 0.5
    ensures f.recommendedStock >= 1 && f.recommendedStock >= f.predictedUsage
    ensures f.recommendedStock == 1 || f.recommendedStock == f.predictedUsage
  {
    var rate := DailyRate(acc.totalUsed, days);
    var predicted := Ceil(rate * forecastDays as real);
    var last := MaxOf(acc.usageDates, Day);
    var since := now - last as real;
    PartForecast(code, acc.name, acc.totalUsed, Round(rate * 10000.0), predicted, last, Round(since),
      if gap > 0.0 then Some(Floor(now) + Round(gap - since)) else None, Max(predicted, 1))
  }

  /** A next use is predicted exactly when the part was used on more than
      one date. */
  lemma NextUseKnown(code: string, acc: PartAccum, days: nat, forecastDays: int, now: real)
    requires days > 0 && acc.usageDates != []
    ensures PartForecastOf(code, acc, AverageGap(acc.usageDates), days, forecastDays, now).predictedNextUse.Some?
      <==> MinOf(acc.usageDates, Day) < MaxOf(acc.usageDates, Day)
  {
    AverageGapPositive(acc.usageDates);
  }

  /** The forecasts for the entries of `partUsageMap`, in their order. */
  function PartForecasts(groups: seq<(string, PartAccum)>, days: nat, forecastDays: int, now: real)
    : (r: seq<PartForecast>)
    requires (days > 0 || groups == []) && AllUsed(groups)
    ensures |r| == |groups|
    ensures forall k :: 0 <= k < |r| ==>
      r[k] == PartForecastOf(groups[k].0, groups[k].1, AverageGap(groups[k].1.usageDates), days, forecastDays, now)
  {
    seq(|groups|, k requires 0 <= k < |groups| =>
      PartForecastOf(groups[k].0, groups[k].1, AverageGap(groups[k].1.usageDates), days, forecastDays, now))
  }

  function PredictedKey(f: PartForecast): real { f.predictedUsage as real }

  /** `predictPartRequirement`: nothing for a machine without records;
      otherwise one forecast per part used on the machine (or on the given
      side), the highest predicted usage first, ties in first-seen order.
      The span of the failures must be positive when a part was used. */
  method PredictPartRequirement(records: seq<MaintenanceRecord>, parts: seq<Part>, usages: seq<PartUsage>,
    machine: string, side: Option<string>, forecastDays: int, now: real) returns (r: seq<PartForecast>)
    requires var recs := MachineRecords(records, machine, side);
      recs == [] || Span(recs) > 0 || UsesOf(recs, parts, usages) == []
    ensures var recs := MachineRecords(records, machine, side);
      (recs == [] ==> r == []) &&
      (recs != [] ==> (AllUsed(PartUsageGroups(recs, parts, usages)) &&
        multiset(r) == multiset(PartForecasts(PartUsageGroups(recs, parts, usages), Span(recs), forecastDays, now))))
    ensures Descending(r, PredictedKey)
    ensures var recs := MachineRecords(records, machine, side);
      recs != [] ==>
        TiesInOrder(r, PartForecasts(PartUsageGroups(recs, parts, usages), Span(recs), forecastDays, now), PredictedKey)
  {
    var recs := MachineRecords(records, machine, side);
    if recs == [] {
      return [];
    }
    var days := Span(recs);
    var groups := CollectPartUsage(recs, parts, usages);
    GroupsUsed(recs, parts, usages);
    var forecasts := PartForecasts(groups, days, forecastDays, now);
    r := SortDesc(forecasts, PredictedKey);
    SortDescTies(forecasts, PredictedKey);
  }

  // ---------------------------------------------------------------------
  // analyzeFailurePatterns

  /** The fewest failures `analyzeFailurePatterns` looks for patterns in. */
  const MinPatternRecords: nat := 5

  /** The four parts of the day the failures are counted under. */
  datatype DayPart = Morning | Afternoon | Evening | Night

  /** The keys of `timePatterns`, in the order they are set up. */
  const DayParts: seq<DayPart> := [Morning, Afternoon, Evening, Night]

  /** The part of the day by the hour of `time_failure`: 06-11 morning,
      12-17 afternoon, 18-21 evening and every other hour night. */
  function DayPartOf(rec: MaintenanceRecord): (p: DayPart)
    ensures p in DayParts
  {
    var hour := rec.time / 3600;
    if 6 <= hour < 12 then Morning
    else if 12 <= hour < 18 then Afternoon
    else if 18 <= hour < 22 then Evening
    else Night
  }

  datatype Weekday = Sun | Mon | Tue | Wed | Thu | Fri | Sat

  /** `dayNames`, indexed by `Date.prototype.getDay()`. */
  const DayNames: seq<Weekday> := [Sun, Mon, Tue, Wed, Thu, Fri, Sat]

  /** The keys of `dayPatterns`, in the order they are set up. */
  const WeekOrder: seq<Weekday> := [Mon, Tue, Wed, Thu, Fri, Sat, Sun]

  /** The weekday of a day number; day 0, 1 January 1970, was a Thursday. */
  function WeekdayOfDay(d: int): (w: Weekday)
    ensures w in WeekOrder
  {
    DayNames[(d + 4) % 7]
  }

  function WeekdayOf(rec: MaintenanceRecord): Weekday { WeekdayOfDay(rec.date) }

  /** Each key of the two fixed dictionaries is set up once. */
  lemma FixedKeysDistinct()
    ensures Distinct(DayParts) && Distinct(WeekOrder)
  {
  }

  /** The weekdays follow each other: a week later is the same weekday, and
      the day after a Saturday is a Sunday. */
  lemma WeekdayCycle(d: int)
    ensures WeekdayOfDay(0) == Thu
    ensures WeekdayOfDay(d + 7) == WeekdayOfDay(d)
    ensures var i := (d + 4) % 7; WeekdayOfDay(d + 1) == DayNames[if i == 6 then 0 else i + 1]
  {
    assert (d + 7 + 4) % 7 == (d + 4) % 7;
    assert (d + 1 + 4) % 7 == if (d + 4) % 7 == 6 then 0 else (d + 4) % 7 + 1;
  }

  /** Increments one counter per element in a dictionary whose keys `ks`
      are all set to 0 up front (`counts[key]++`). */
  method CountByKey<T(==), K(==)>(s: seq<T>, f: T -> K, ks: seq<K>) returns (counts: seq<(K, nat)>)
    requires Distinct(ks)
    requires forall x :: x in s ==> f(x) in ks
    ensures counts == EntriesFor(s, f, ks)
  {
    counts := seq(|ks|, j requires 0 <= j < |ks| => (ks[j], 0));
    assert s[..0] == [];
    for i := 0 to |s|
      invariant counts == EntriesFor(s[..i], f, ks)
    {
      assert s[i] in s;
      counts := CountOne(counts, s[..i], s[i], f, ks);
      assert s[..i + 1] == s[..i] + [s[i]];
    }
    assert s[..|s|] == s;
  }

  /** One `counts[key]++` on the dictionary counted over `p`. */
  method CountOne<T(==), K(==)>(counts: seq<(K, nat)>, ghost p: seq<T>, x: T, f: T -> K, ks: seq<K>)
    returns (next: seq<(K, nat)>)
    requires Distinct(ks) && f(x) in ks
    requires counts == EntriesFor(p, f, ks)
    ensures next == EntriesFor(p + [x], f, ks)
  {
    var j := FindGroup(counts, f(x));
    EntriesHit(p, x, f, ks, j);
    next := counts[j := (f(x), counts[j].1 + 1)];
  }

  /** When every element's key is one of the distinct keys `ks`, the counts
      add up to the number of elements. */
  lemma {:induction false} CoveredTotal<T, K>(s: seq<T>, f: T -> K, ks: seq<K>)
    requires Distinct(ks)
    requires forall x :: x in s ==> f(x) in ks
    ensures SumOf(EntriesFor(s, f, ks), EntryCount) == |s|
  {
    EntriesForTotal(s, f, ks);
    OccurrencesCovered(s, f, ks);
  }

  lemma {:induction false} OccurrencesCovered<T, K>(s: seq<T>, f: T -> K, ks: seq<K>)
    requires Distinct(ks)
    requires forall x :: x in s ==> f(x) in ks
    ensures TotalOccurrences(s, f, ks) == |s|
    decreases |s|
  {
    if s == [] {
      assert forall k :: Occurrences(s, f, k) == 0;
      NoOccurrences(s, f, ks);
    } else {
      var init := s[..|s| - 1];
      var x := s[|s| - 1];
      assert s == init + [x];
      assert forall y :: y in init ==> y in s;
      OccurrencesCovered(init, f, ks);
      TotalOccurrencesAppend(init, x, f, ks);
    }
  }

  lemma {:induction false} NoOccurrences<T, K>(s: seq<T>, f: T -> K, ks: seq<K>)
    requires s == []
    ensures TotalOccurrences(s, f, ks) == 0
    decreases |ks|
  {
    if ks != [] {
      NoOccurrences(s, f, ks[..|ks| - 1]);
    }
  }

  function CountOf<K>(e: (K, nat)): real { e.1 as real }

  /** `Object.entries(counts).sort((a, b) => b[1] - a[1])[0][0]`. */
  function MostCommon<K(==)>(counts: seq<(K, nat)>): K
    requires counts != []
  {
    SortDesc(counts, CountOf)[0].0
  }

  /** The count at `i` is the largest, and no earlier key has it. */
  predicate FirstMaxAt<K>(counts: seq<(K, nat)>, i: int)
    requires 0 <= i < |counts|
  {
    (forall j :: 0 <= j < |counts| ==> counts[j].1 <= counts[i].1) &&
    (forall j :: 0 <= j < i ==> counts[j].1 < counts[i].1)
  }

  /** `k` is the first key, in dictionary order, with the largest count. */
  ghost predicate FirstMaximum<K>(counts: seq<(K, nat)>, k: K)
  {
    exists i :: 0 <= i < |counts| && counts[i].0 == k && FirstMaxAt(counts, i)
  }

  /** The most common key is the first key whose count is the largest: the
      sort is stable, so ties go to the earlier key. */
  lemma MostCommonFirst<K(!new)>(counts: seq<(K, nat)>)
    requires counts != []
    ensures FirstMaximum(counts, MostCommon(counts))
  {
    var sorted := SortDesc(counts, CountOf);
    SortedHeadLargest(counts, sorted);
    var i := StableHead(counts, sorted);
    assert FirstMaxAt(counts, i) by {
      assert forall j :: 0 <= j < i ==> counts[j].1 <= counts[i].1;
    }
  }

  /** After a descending sort the first entry has the largest count. */
  lemma SortedHeadLargest<K>(counts: seq<(K, nat)>, sorted: seq<(K, nat)>)
    requires counts != [] && sorted == SortDesc(counts, CountOf)
    ensures forall j :: 0 <= j < |counts| ==> counts[j].1 <= sorted[0].1
  {
    forall j | 0 <= j < |counts|
      ensures counts[j].1 <= sorted[0].1
    {
      var e := counts[j];
      assert e in multiset(sorted);
      var k :| 0 <= k < |sorted| && sorted[k] == e;
      if k > 0 {
        assert CountOf(sorted[0]) >= CountOf(sorted[k]);
      }
    }
  }

  /** The stable sort puts first the earliest entry among those whose count
      is the first entry's count. */
  lemma StableHead<K(!new)>(counts: seq<(K, nat)>, sorted: seq<(K, nat)>) returns (i: nat)
    requires counts != [] && sorted == SortDesc(counts, CountOf)
    ensures i < |counts| && counts[i] == sorted[0]
    ensures forall j :: 0 <= j < i ==> counts[j].1 != sorted[0].1
  {
    var c := sorted[0].1;
    var p := (e: (K, nat)) => e.1 == c;
    SortDescStable(counts, CountOf, p);
    assert Filter(sorted, p) != [] by {
      FilterMember(sorted, p);
      assert p(sorted[0]) && sorted[0] in sorted;
      assert sorted[0] in Filter(sorted, p);
    }
    FilterHead(sorted, p);
    var i0 :| 0 <= i0 < |sorted| && sorted[i0] == Filter(sorted, p)[0] && forall j :: 0 <= j < i0 ==> !p(sorted[j]);
    assert i0 == 0;
    FilterHead(counts, p);
    i :| 0 <= i < |counts| && counts[i] == Filter(counts, p)[0] && forall j :: 0 <= j < i ==> !p(counts[j]);
  }

  /** An entry of `symptom_patterns.top_symptoms`: the percentage of all the
      machine's failures, in tenths of a percent as `toFixed(1)` prints it. */
  datatype SymptomShare = SymptomShare(symptom: string, count: nat, percentTenths: int)

  function ShareOf(e: (string, nat), n: nat): (s: SymptomShare)
    requires n > 0
    ensures s.symptom == e.0 && s.count == e.1
    ensures var pct := e.1 as real / n as real * 1000.0;
      pct - 0.5 < s.percentTenths as real <= pct + 0.5
  {
    SymptomShare(e.0, e.1, Round(e.1 as real / n as real * 1000.0))
  }

  /** The five most frequent symptoms (fewer when there are fewer), the most
      frequent first. */
  function TopSymptoms(recs: seq<MaintenanceRecord>): seq<SymptomShare>
    requires recs != []
  {
    SharesOf(Take(SortDesc(TallyOf(recs, SymptomLabel), CountKey), TopSymptomCount), |recs|)
  }

  function SharesOf(top: seq<(string, nat)>, n: nat): (r: seq<SymptomShare>)
    requires n > 0
    ensures |r| == |top| && forall k :: 0 <= k < |top| ==> r[k] == ShareOf(top[k], n)
  {
    seq(|top|, k requires 0 <= k < |top| => ShareOf(top[k], n))
  }

  /** The outcome of `analyzeFailurePatterns`. */
  datatype FailurePatterns =
    | TooFewRecords
    | Patterns(machine: string, totalRecords: nat,
        timeCounts: seq<(DayPart, nat)>, timeMostCommon: DayPart,
        dayCounts: seq<(Weekday, nat)>, dayMostCommon: Weekday,
        topSymptoms: seq<SymptomShare>)

  /** The patterns in the failures `recs` of `machine`. */
  function PatternsOf(recs: seq<MaintenanceRecord>, machine: string): FailurePatterns
  {
    if |recs| < MinPatternRecords then TooFewRecords
    else
      var times := EntriesFor(recs, DayPartOf, DayParts);
      var days := EntriesFor(recs, WeekdayOf, WeekOrder);
      Patterns(machine, |recs|, times, MostCommon(times), days, MostCommon(days), TopSymptoms(recs))
  }

  /** Every failure is counted under exactly one part of the day and one
      weekday, so each set of counts adds up to the number of failures. */
  lemma PatternCountsTotal(recs: seq<MaintenanceRecord>, machine: string)
    requires |recs| >= MinPatternRecords
    ensures var p := PatternsOf(recs, machine);
      p.totalRecords == |recs| &&
      SumOf(p.timeCounts, EntryCount) == |recs| && SumOf(p.dayCounts, EntryCount) == |recs|
  {
    FixedKeysDistinct();
    CoveredTotal(recs, DayPartOf, DayParts);
    CoveredTotal(recs, WeekdayOf, WeekOrder);
  }

  /** The most common part of the day and weekday carry the largest count,
      ties going to the key set up first. */
  lemma PatternsMostCommon(recs: seq<MaintenanceRecord>, machine: string)
    requires |recs| >= MinPatternRecords
    ensures var p := PatternsOf(recs, machine);
      FirstMaximum(p.timeCounts, p.timeMostCommon) && FirstMaximum(p.dayCounts, p.dayMostCommon)
  {
    MostCommonFirst(EntriesFor(recs, DayPartOf, DayParts));
    MostCommonFirst(EntriesFor(recs, WeekdayOf, WeekOrder));
  }

  /** At most five symptoms are listed, in descending count. */
  lemma TopSymptomsOrdered(recs: seq<MaintenanceRecord>)
    requires recs != []
    ensures var top := TopSymptoms(recs);
      |top| <= TopSymptomCount && forall i, j :: 0 <= i < j < |top| ==> top[i].count >= top[j].count
  {
    var sorted := SortDesc(TallyOf(recs, SymptomLabel), CountKey);
    var top := TopSymptoms(recs);
    forall i, j | 0 <= i < j < |top|
      ensures top[i].count >= top[j].count
    {
      assert CountKey(sorted[i]) >= CountKey(sorted[j]);
    }
  }

  /** Each listed symptom comes with its number of failures and a
      percentage between 0 and 100. */
  lemma TopSymptomsCounted(recs: seq<MaintenanceRecord>)
    requires recs != []
    ensures var top := TopSymptoms(recs);
      forall i :: 0 <= i < |top| ==>
        (top[i].symptom, top[i].count) in TallyOf(recs, SymptomLabel) &&
        top[i].count == Occurrences(recs, SymptomLabel, top[i].symptom) &&
        0 <= top[i].percentTenths <= 1000
  {
    var all := TallyOf(recs, SymptomLabel);
    var sorted := SortDesc(all, CountKey);
    var top := TopSymptoms(recs);
    forall i | 0 <= i < |top|
      ensures (top[i].symptom, top[i].count) in all
      ensures top[i].count == Occurrences(recs, SymptomLabel, top[i].symptom)
      ensures 0 <= top[i].percentTenths <= 1000
    {
      assert sorted[i] in multiset(all);
      var k :| 0 <= k < |all| && all[k] == sorted[i];
      ShareBounds(sorted[i], |recs|, Occurrences(recs, SymptomLabel, sorted[i].0));
    }
  }

  /** No symptom left out of the list is more frequent than one listed. */
  lemma TopSymptomsDominant(recs: seq<MaintenanceRecord>)
    requires recs != []
    ensures var top := TopSymptoms(recs);
      var taken := Take(SortDesc(TallyOf(recs, SymptomLabel), CountKey), TopSymptomCount);
      forall e, i :: e in TallyOf(recs, SymptomLabel) && e !in taken && 0 <= i < |top| ==> e.1 <= top[i].count
  {
    var taken := Take(SortDesc(TallyOf(recs, SymptomLabel), CountKey), TopSymptomCount);
    TopSymptomsDominate(recs);
    assert forall i :: 0 <= i < |taken| ==> taken[i] in taken;
  }

  lemma ShareBounds(e: (string, nat), n: nat, c: nat)
    requires n > 0 && e.1 == c && c <= n
    ensures 0 <= ShareOf(e, n).percentTenths <= 1000
  {
    var q := c as real / n as real;
    assert 0.0 <= q <= 1.0 by {
      ProductSign(q, n as real);
      assert q * n as real == c as real;
      assert (1.0 - q) * n as real == (n - c) as real;
      ProductSign(1.0 - q, n as real);
    }
  }

  /** `analyzeFailurePatterns`: the patterns in all the failures of `machine`. */
  method AnalyzeFailurePatterns(records: seq<MaintenanceRecord>, machine: string) returns (r: FailurePatterns)
    ensures r == PatternsOf(RecordsByMachine(records, machine), machine)
  {
    var recs := RecordsByMachine(records, machine);
    if |recs| < MinPatternRecords {
      return TooFewRecords;
    }
    FixedKeysDistinct();
    var times := CountByKey(recs, DayPartOf, DayParts);
    var days := CountByKey(recs, WeekdayOf, WeekOrder);
    var symptoms := Tally(recs, SymptomLabel);
    var top := Take(SortDesc(symptoms, CountKey), TopSymptomCount);
    r := Patterns(machine, |recs|, times, MostCommon(times), days, MostCommon(days), SharesOf(top, |recs|));
  }

  // ---------------------------------------------------------------------
  // calculateRiskScore and getRecommendation

  datatype RiskLevel = Unknown | Low | Medium | High

  datatype Trend = Increasing | Decreasing | Stable

  /** The four recommendations `getRecommendation` words. */
  datatype Advice = InspectNow | PlanWithinTwoWeeks | RoutineCheck | KeepMonitoring

  /** High from a score of 70, medium from 40, low below. */
  function LevelOf(score: int): (l: RiskLevel)
    ensures l != Unknown
  {
    if score >= 70 then High else if score >= 40 then Medium else Low
  }

  /** `getRecommendation`: by the score, then by how long the machine has
      gone without a failure. */
  function Recommendation(score: int, daysSince: real): Advice
  {
    if score >= 70 then InspectNow
    else if score >= 40 then PlanWithinTwoWeeks
    else if daysSince > 90.0 then RoutineCheck
    else KeepMonitoring
  }

  /** The recommendation follows the risk level: immediate inspection exactly
      at high risk, a visit within two weeks exactly at medium risk, and at
      low risk a routine check exactly after more than 90 quiet days. */
  lemma RecommendationMatchesLevel(score: int, daysSince: real)
    ensures Recommendation(score, daysSince) == InspectNow <==> LevelOf(score) == High
    ensures Recommendation(score, daysSince) == PlanWithinTwoWeeks <==> LevelOf(score) == Medium
    ensures LevelOf(score) == Low ==> (Recommendation(score, daysSince) == RoutineCheck <==> daysSince > 90.0)
  {
  }

  /** The trend factor: the length of the later half of the records less the
      length of the earlier half, from six records on. */
  function TrendOf(n: nat): int
  {
    if n >= 6 then (n - n / 2) - n / 2 else 0
  }

  function TrendLabel(trend: int): Trend
  {
    if trend > 0 then Increasing else if trend < 0 then Decreasing else Stable
  }

  /** The halves differ in length by the parity of `n` only: the trend is 0
      or 1, never decreasing, and increasing exactly for an odd count from
      seven on. */
  lemma TrendIsParity(n: nat)
    ensures TrendOf(n) == if n >= 6 then n % 2 else 0
    ensures 0 <= TrendOf(n) <= 1
    ensures TrendLabel(TrendOf(n)) != Decreasing
    ensures TrendLabel(TrendOf(n)) == Increasing <==> n >= 7 && n % 2 == 1
  {
  }

  /** The points for recency: 30 within a week, 20 within two, 10 within 30 days. */
  function RecencyPoints(daysSince: real): int
  {
    if daysSince <= 7.0 then 30 else if daysSince <= 14.0 then 20 else if daysSince <= 30.0 then 10 else 0
  }

  /** The additive score: up to 40 for recent failures, up to 30 for a rising
      trend and up to 30 for recency. */
  function ScoreOf(recent: nat, trend: int, daysSince: real): int
  {
    Min(40, recent * 10) + (if trend > 0 then Min(30, trend * 10) else 0) + RecencyPoints(daysSince)
  }

  /** The outcome of `calculateRiskScore`; `daysSinceLastFailure` is rounded. */
  datatype RiskAssessment =
    | Unassessed(riskScore: int, riskLevel: RiskLevel)
    | Assessed(machine: string, machineSide: Option<string>, riskScore: int, riskLevel: RiskLevel,
        recentFailures: nat, daysSinceLastFailure: int, trend: Trend, recommendation: Advice)

  /** A failure on or after the instant 30 days before `now`. */
  function IsRecent(now: real): MaintenanceRecord -> bool
  {
    (rec: MaintenanceRecord) => rec.date as real >= now - 30.0
  }

  function RecordDay(rec: MaintenanceRecord): real { rec.date as real }

  /** The risk of the failures `recs` of a machine at the instant `now`. */
  function RiskOf(recs: seq<MaintenanceRecord>, machine: string, side: Option<string>, now: real): RiskAssessment
  {
    if recs == [] then Unassessed(0, Unknown)
    else
      RiskFrom(machine, side, Count(recs, IsRecent(now)), |recs|, DaysSinceLast(recs, now))
  }

  /** The days from the latest failure to `now`. */
  function DaysSinceLast(recs: seq<MaintenanceRecord>, now: real): real
    requires recs != []
  {
    now - MaxOf(recs, RecordDate) as real
  }

  /** The assessment of `n` failures, `recent` of them in the last 30 days,
      the latest `daysSince` days ago. */
  function RiskFrom(machine: string, side: Option<string>, recent: nat, n: nat, daysSince: real): RiskAssessment
  {
    Assessment(machine, side, ScoreOf(recent, TrendOf(n), daysSince), recent, TrendOf(n), daysSince)
  }

  /** The assessment reported for a score and its factors. */
  function Assessment(machine: string, side: Option<string>, score: int, recent: nat, trend: int, daysSince: real)
    : RiskAssessment
  {
    Assessed(machine, side, score, LevelOf(score), recent, Round(daysSince), TrendLabel(trend), Recommendation(score, daysSince))
  }

  /** No records give score 0 and an unknown level; otherwise the score lies
      between 0 and 80 (the trend adds at most 10), the level is the score's
      and the trend is never decreasing. */
  lemma RiskBounds(recs: seq<MaintenanceRecord>, machine: string, side: Option<string>, now: real)
    ensures var r := RiskOf(recs, machine, side, now);
      (recs == [] <==> r == Unassessed(0, Unknown)) &&
      (r.Assessed? ==> (0 <= r.riskScore <= 80 && r.riskLevel == LevelOf(r.riskScore) &&
        r.trend != Decreasing && r.recentFailures <= |recs|))
  {
    if recs != [] {
      TrendIsParity(|recs|);
    }
  }

  /** The bound 80 is reached: an odd count of at least seven failures, four
      of them in the last 30 days and the last within a week. */
  lemma RiskMaximum(recs: seq<MaintenanceRecord>, machine: string, side: Option<string>, now: real)
    requires |recs| >= 7 && |recs| % 2 == 1
    requires Count(recs, IsRecent(now)) >= 4
    requires now - MaxOf(recs, RecordDate) as real <= 7.0
    ensures RiskOf(recs, machine, side, now).riskScore == 80
  {
    TrendIsParity(|recs|);
  }

  /** High risk needs at least three failures in the last 30 days and one
      within the last two weeks. */
  lemma HighRiskNeeds(recs: seq<MaintenanceRecord>, machine: string, side: Option<string>, now: real)
    requires RiskOf(recs, machine, side, now).riskLevel == High
    ensures recs != [] && Count(recs, IsRecent(now)) >= 3 && now - MaxOf(recs, RecordDate) as real <= 14.0
  {
    TrendIsParity(|recs|);
  }

  /** After an ascending sort by date, the last record holds the latest date. */
  lemma LatestByDate(recs: seq<MaintenanceRecord>, sorted: seq<MaintenanceRecord>)
    requires recs != [] && sorted == SortBy(recs, RecordDay)
    ensures sorted[|sorted| - 1].date == MaxOf(recs, RecordDate)
  {
    var last := sorted[|sorted| - 1];
    forall i | 0 <= i < |recs|
      ensures recs[i].date <= last.date
    {
      assert recs[i] in multiset(sorted);
      var j :| 0 <= j < |sorted| && sorted[j] == recs[i];
      assert j < |sorted| - 1 ==> RecordDay(sorted[j]) <= RecordDay(last);
    }
    assert last in multiset(recs);
  }

  /** `calculateRiskScore`: sorts the machine's failures by date, then adds
      up the three factors. */
  method CalculateRiskScore(records: seq<MaintenanceRecord>, machine: string, side: Option<string>, now: real)
    returns (r: RiskAssessment)
    ensures r == RiskOf(MachineRecords(records, machine, side), machine, side, now)
  {
    var recs := MachineRecords(records, machine, side);
    if recs == [] {
      return Unassessed(0, Unknown);
    }
    var sorted := SortBy(recs, RecordDay);
    var last := sorted[|sorted| - 1].date;
    assert last == MaxOf(recs, RecordDate) by {
      LatestByDate(recs, sorted);
    }
    var daysSince := now - last as real;
    assert daysSince == DaysSinceLast(recs, now);
    var recent := |Filter(sorted, IsRecent(now))|;
    assert recent == Count(recs, IsRecent(now)) by {
      CountPermutation(recs, sorted, IsRecent(now));
    }
    var trend := TrendFactor(sorted);
    var score := AddUpScore(recent, trend, daysSince);
    r := Assessment(machine, side, score, recent, trend, daysSince);
    assert r == RiskFrom(machine, side, recent, |recs|, daysSince);
  }

  /** The later half of the records less the earlier half, from six on. */
  method TrendFactor(sorted: seq<MaintenanceRecord>) returns (trend: int)
    ensures trend == TrendOf(|sorted|)
  {
    trend := 0;
    if |sorted| >= 6 {
      var half := |sorted| / 2;
      trend := |sorted[half..]| - |sorted[..half]|;
    }
  }

  /** Adds the three factors up into `riskScore`. */
  method AddUpScore(recent: nat, trend: int, daysSince: real) returns (score: int)
    ensures score == ScoreOf(recent, trend, daysSince)
  {
    score := 0;
    score := score + Min(40, recent * 10);
    if trend > 0 {
      score := score + Min(30, trend * 10);
    }
    if daysSince <= 7.0 {
      score := score + 30;
    } else if daysSince <= 14.0 {
      score := score + 20;
    } else if daysSince <= 30.0 {
      score := score + 10;
    }
  }
}

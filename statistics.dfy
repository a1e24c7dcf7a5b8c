/** Post-processing of evacuation times (src/qra_system/statistical_analysis.py): descriptive
    statistics and percentiles under numpy's default linear interpolation, the ASET/RSET
    comparison, the exceedance sweep, individual risk, the name dispatch of the distribution fit
    and the pooling of several simulation runs.  Every sample the source hands to numpy here is a
    `seq<real>`; numpy's reductions are the functions of module Samples. */
module Statistics {
  import opened Numerics
  import opened Samples
  import opened Wrappers
  import opened Evacuation

  // ---------------------------------------------------------------- fractions of a sample

  /** `np.mean` of a boolean array: the share of true entries. */
  function Fraction(count: nat, n: nat): (r: real)
    requires 0 < n
    ensures count <= n ==> 0.0 <= r <= 1.0
    ensures count == 0 <==> r == 0.0
  {
    ShareBounds(count, n);
    count as real / n as real
  }

  lemma ShareBounds(count: nat, n: nat)
    requires 0 < n
    ensures count <= n ==> 0.0 <= count as real / n as real <= 1.0
  {
    if count <= n {
      DivideBounds(count as real, n as real, 0.0, 1.0);
    }
  }

  /** A larger count of the same sample is a larger share. */
  lemma FractionMonotone(c1: nat, c2: nat, n: nat)
    requires 0 < n && c1 <= c2
    ensures Fraction(c1, n) <= Fraction(c2, n)
  {
    if c1 < c2 {
      DivLess(c1 as real, c2 as real, n as real);
    }
  }

  /** Dividing by a positive number keeps strict order. */
  lemma DivLess(a: real, b: real, n: real)
    requires 0.0 < n && a < b
    ensures a / n < b / n
  {
    var qa, qb := a / n, b / n;
    assert a == n * qa && b == n * qb;
    if qb <= qa {
      MulLe(n, qb, qa);
    }
  }

  lemma MulLe(n: real, a: real, b: real)
    requires 0.0 < n && a <= b
    ensures n * a <= n * b
  {
  }

  lemma MulLess(n: real, a: real, b: real)
    requires 0.0 < n && a < b
    ensures n * a < n * b
  {
  }

  /** A non-zero factor cancels. */
  lemma Cancel(n: real, x: real, y: real)
    requires n != 0.0 && n * x == n * y
    ensures x == y
  {
    if x < y {
      if n > 0.0 { MulLess(n, x, y); } else { MulLess(-n, x, y); }
    } else if y < x {
      if n > 0.0 { MulLess(n, y, x); } else { MulLess(-n, y, x); }
    }
  }

  /** `np.mean(times > aset)`: the share of samples strictly above `aset`. */
  function ExceedanceFraction(times: seq<real>, aset: real): real
    requires 0 < |times|
  {
    Fraction(CountAbove(times, aset), |times|)
  }

  /** `np.mean(times < aset)`: the share of samples strictly below `aset`. */
  function SuccessFraction(times: seq<real>, aset: real): real
    requires 0 < |times|
  {
    Fraction(CountBelow(times, aset), |times|)
  }

  /** A later ASET never has a larger share of samples above it. */
  lemma ExceedanceAntitone(times: seq<real>, a: real, b: real)
    requires 0 < |times| && a <= b
    ensures ExceedanceFraction(times, b) <= ExceedanceFraction(times, a)
  {
    CountAboveAntitone(times, a, b);
    FractionMonotone(CountAbove(times, b), CountAbove(times, a), |times|);
  }

  // ---------------------------------------------------------------- percentiles

  /** The virtual index numpy's linear method looks up, p/100 * (n - 1), written as n - 1
      steps of p/100 so that it stays linear in p; it lies in [0, n - 1]. */
  function Rank(n: nat, p: real): (h: real)
    requires 0 < n && 0.0 <= p <= 100.0
    ensures 0.0 <= h <= (n - 1) as real
  {
    if n == 1 then 0.0 else Rank(n - 1, p) + p / 100.0
  }

  /** The rank is the product numpy computes. */
  lemma {:induction false} RankIsProduct(n: nat, p: real)
    requires 0 < n && 0.0 <= p <= 100.0
    ensures Rank(n, p) == (p / 100.0) * (n - 1) as real
  {
    if n > 1 {
      RankIsProduct(n - 1, p);
      MulSucc(p / 100.0, (n - 2) as real, (n - 1) as real);
    }
  }

  lemma MulSucc(q: real, k: real, k1: real)
    requires k1 == k + 1.0
    ensures q * k + q == q * k1
  {
  }

  /** A larger percentile has a larger rank. */
  lemma {:induction false} RankMonotone(n: nat, p1: real, p2: real)
    requires 0 < n && 0.0 <= p1 <= p2 <= 100.0
    ensures Rank(n, p1) <= Rank(n, p2)
  {
    if n > 1 {
      RankMonotone(n - 1, p1, p2);
    }
  }

  /** The rank of the 50th percentile is the middle (n - 1) / 2. */
  lemma {:induction false} RankOfMedian(n: nat)
    requires 0 < n
    ensures Rank(n, 50.0) == (n - 1) as real / 2.0
  {
    if n > 1 {
      RankOfMedian(n - 1);
    }
  }

  lemma ScaleWithin(q: real, m: real)
    requires 0.0 <= q <= 1.0 && 0.0 <= m
    ensures 0.0 <= q * m <= m
  {
  }

  /** numpy's interpolation `x + f * (y - x)` between neighbouring order statistics, with the
      product multiplied out. */
  function Lerp(x: real, y: real, f: real): real {
    x + f * y - f * x
  }

  /** Between neighbours, the interpolant lies between them. */
  lemma LerpBetween(x: real, y: real, f: real)
    requires x <= y && 0.0 <= f <= 1.0
    ensures x <= Lerp(x, y, f) <= y
  {
    MulMonotone(x, y, f);
    MulMonotone(f, 1.0, y - x);
  }

  /** A larger fraction between the same neighbours gives a larger interpolant. */
  lemma LerpMonotone(x: real, y: real, f1: real, f2: real)
    requires x <= y && f1 <= f2
    ensures Lerp(x, y, f1) <= Lerp(x, y, f2)
  {
    MulMonotone(f1, f2, y - x);
  }

  lemma MulMonotone(a: real, b: real, c: real)
    requires a <= b && 0.0 <= c
    ensures a * c <= b * c
  {
  }

  /** Linear interpolation at the virtual index h of the order statistics a: between a[floor(h)]
      and a[floor(h) + 1], or the last one when floor(h) is the last index. */
  function Interpolate(a: seq<real>, h: real): real
    requires 0 < |a| && 0.0 <= h <= (|a| - 1) as real
  {
    var lo := h.Floor;
    if lo + 1 < |a| then Lerp(a[lo], a[lo + 1], h - lo as real) else a[lo]
  }

  /** On sorted order statistics the interpolant lies between the first and the last. */
  lemma InterpolateBetween(a: seq<real>, h: real)
    requires 0 < |a| && 0.0 <= h <= (|a| - 1) as real && Sorted(a)
    ensures a[0] <= Interpolate(a, h) <= a[|a| - 1]
  {
    var lo := h.Floor;
    assert a[0] <= a[lo] <= a[|a| - 1];
    if lo + 1 < |a| {
      assert a[lo + 1] <= a[|a| - 1];
      LerpBetween(a[lo], a[lo + 1], h - lo as real);
    }
  }

  /** On sorted order statistics the interpolant grows with the index. */
  lemma InterpolateMonotone(a: seq<real>, h1: real, h2: real)
    requires 0 < |a| && 0.0 <= h1 <= h2 <= (|a| - 1) as real && Sorted(a)
    ensures Interpolate(a, h1) <= Interpolate(a, h2)
  {
    var n := |a|;
    var lo1, lo2 := h1.Floor, h2.Floor;
    if lo1 == lo2 {
      if lo1 + 1 < n {
        LerpMonotone(a[lo1], a[lo1 + 1], h1 - lo1 as real, h2 - lo2 as real);
      }
    } else {
      assert lo1 + 1 <= lo2 < n;
      LerpBetween(a[lo1], a[lo1 + 1], h1 - lo1 as real);
      assert a[lo1 + 1] <= a[lo2];
      if lo2 + 1 < n {
        LerpBetween(a[lo2], a[lo2 + 1], h2 - lo2 as real);
      }
    }
  }

  /** `np.percentile(s, p)` with the default linear method: sort, find the virtual index
      h = p/100 * (n-1) and interpolate between the order statistics at floor(h) and floor(h)+1.
      numpy refuses an empty sample and a p outside [0, 100]. */
  function Percentile(s: seq<real>, p: real): real
    requires 0 < |s| && 0.0 <= p <= 100.0
  {
    Interpolate(Sort(s), Rank(|s|, p))
  }

  /** Every percentile lies between the smallest and the largest sample. */
  lemma PercentileBounds(s: seq<real>, p: real)
    requires 0 < |s| && 0.0 <= p <= 100.0
    ensures Min(s) <= Percentile(s, p) <= Max(s)
  {
    SortEnds(s);
    InterpolateBetween(Sort(s), Rank(|s|, p));
  }

  /** The percentile is monotone in p: a higher p never gives a smaller value. */
  lemma PercentileMonotone(s: seq<real>, p1: real, p2: real)
    requires 0 < |s| && 0.0 <= p1 <= p2 <= 100.0
    ensures Percentile(s, p1) <= Percentile(s, p2)
  {
    RankMonotone(|s|, p1, p2);
    InterpolateMonotone(Sort(s), Rank(|s|, p1), Rank(|s|, p2));
  }

  /** `np.median`: the middle order statistic, or the mean of the two middle ones. */
  function Median(s: seq<real>): real
    requires 0 < |s|
  {
    var a := Sort(s);
    var n := |s|;
    if n % 2 == 1 then a[n / 2] else (a[n / 2 - 1] + a[n / 2]) / 2.0
  }

  /** The median is the 50th percentile under linear interpolation. */
  lemma MedianIsPercentile50(s: seq<real>)
    requires 0 < |s|
    ensures Median(s) == Percentile(s, 50.0)
  {
    var a, n := Sort(s), |s|;
    var h, k := Rank(n, 50.0), n / 2;
    RankOfMedian(n);
    assert Percentile(s, 50.0) == Interpolate(a, h);
    if n % 2 == 1 {
      assert n == 2 * k + 1 && h == k as real;
      assert h.Floor == k;
      if k + 1 < n {
        LerpZero(a[k], a[k + 1], h - k as real);
      }
    } else {
      assert n == 2 * k && h == k as real - 0.5;
      assert h.Floor == k - 1;
      LerpHalf(a[k - 1], a[k], h - (k - 1) as real);
    }
  }

  lemma LerpZero(x: real, y: real, f: real)
    requires f == 0.0
    ensures Lerp(x, y, f) == x
  {
  }

  lemma LerpHalf(x: real, y: real, f: real)
    requires f == 0.5
    ensures Lerp(x, y, f) == (x + y) / 2.0
  {
  }

  // ---------------------------------------------------------------- descriptive statistics

  /** Sum of squared deviations from m. */
  function SquaredDeviations(s: seq<real>, m: real): (r: real)
    ensures 0.0 <= r
  {
    if |s| == 0 then 0.0
    else
      SqNonNegative(s[|s| - 1] - m);
      SquaredDeviations(s[..|s| - 1], m) + Sq(s[|s| - 1] - m)
  }

  /** `np.var`: the mean squared deviation from the mean (population variance). */
  function Variance(s: seq<real>): (v: real)
    requires 0 < |s|
    ensures 0.0 <= v
  {
    DivideBounds(SquaredDeviations(s, Mean(s)), |s| as real, 0.0, SquaredDeviations(s, Mean(s)));
    SquaredDeviations(s, Mean(s)) / |s| as real
  }

  /** A sample whose elements all equal c has no deviation from c. */
  lemma {:induction false} SquaredDeviationsOfConstant(s: seq<real>, c: real)
    requires forall i :: 0 <= i < |s| ==> s[i] == c
    ensures SquaredDeviations(s, c) == 0.0
  {
    if |s| > 0 {
      SquaredDeviationsOfConstant(s[..|s| - 1], c);
      assert Sq(s[|s| - 1] - c) == 0.0;
    }
  }

  /** The descriptive statistics of the source without the standard deviation. */
  datatype DescriptiveStatistics = DescriptiveStatistics(
    mean: real,
    median: real,
    variance: real,
    min: real,
    max: real,
    q25: real,
    q75: real,
    q95: real,
    q99: real,
    iqr: real)

  /** calculate_descriptive_statistics: the order statistics are ordered, the IQR is the
      distance between the quartiles and is never negative, the mean lies in [min, max]. */
  function CalculateDescriptiveStatistics(times: seq<real>): (d: DescriptiveStatistics)
    requires 0 < |times|
    ensures d.min == Min(times) && d.max == Max(times) && d.mean == Mean(times)
    ensures d.min <= d.q25 <= d.median <= d.q75 <= d.q95 <= d.q99 <= d.max
    ensures d.min <= d.mean <= d.max
    ensures d.iqr == d.q75 - d.q25 && 0.0 <= d.iqr
    ensures 0.0 <= d.variance
  {
    PercentileBounds(times, 25.0);
    PercentileBounds(times, 99.0);
    MedianIsPercentile50(times);
    PercentileMonotone(times, 25.0, 50.0);
    PercentileMonotone(times, 50.0, 75.0);
    PercentileMonotone(times, 75.0, 95.0);
    PercentileMonotone(times, 95.0, 99.0);
    MeanBetweenMinMax(times);
    DescriptiveStatistics(
      Mean(times), Median(times), Variance(times), Min(times), Max(times),
      Percentile(times, 25.0), Percentile(times, 75.0), Percentile(times, 95.0),
      Percentile(times, 99.0), Percentile(times, 75.0) - Percentile(times, 25.0))
  }

  /** The percentiles calculate_percentiles takes when none are given. */
  const DefaultPercentiles: seq<real> := [5.0, 10.0, 25.0, 50.0, 75.0, 90.0, 95.0, 99.0]

  /** The requested percentile list, or the default one for `None`. */
  function RequestedPercentiles(percentiles: Option<seq<real>>): seq<real> {
    match percentiles
    case Some(ps) => ps
    case None => DefaultPercentiles
  }

  /** All requested percentiles are in numpy's accepted range [0, 100]. */
  predicate PercentilesInRange(ps: seq<real>) {
    forall i :: 0 <= i < |ps| ==> 0.0 <= ps[i] <= 100.0
  }

  /** calculate_percentiles: one entry per requested percentile, holding that percentile. */
  function CalculatePercentiles(times: seq<real>, percentiles: Option<seq<real>>): (r: map<real, real>)
    requires 0 < |times| && (percentiles.Some? ==> PercentilesInRange(percentiles.value))
    ensures r.Keys == set i | 0 <= i < |RequestedPercentiles(percentiles)| :: RequestedPercentiles(percentiles)[i]
    ensures forall p :: p in r ==> 0.0 <= p <= 100.0 && r[p] == Percentile(times, p)
  {
    DefaultPercentilesInRange();
    var ps := RequestedPercentiles(percentiles);
    map i | 0 <= i < |ps| :: ps[i] := Percentile(times, ps[i])
  }

  lemma DefaultPercentilesInRange()
    ensures PercentilesInRange(DefaultPercentiles)
  {
    assert DefaultPercentiles == [5.0, 10.0, 25.0, 50.0, 75.0, 90.0, 95.0, 99.0];
  }

  /** Without an explicit list the keys are exactly 5, 10, 25, 50, 75, 90, 95 and 99. */
  lemma DefaultPercentileKeys(times: seq<real>)
    requires 0 < |times|
    ensures CalculatePercentiles(times, None).Keys == {5.0, 10.0, 25.0, 50.0, 75.0, 90.0, 95.0, 99.0}
  {
    var ks := CalculatePercentiles(times, None).Keys;
    assert DefaultPercentiles[0] == 5.0 && DefaultPercentiles[1] == 10.0;
    assert DefaultPercentiles[2] == 25.0 && DefaultPercentiles[3] == 50.0;
    assert DefaultPercentiles[4] == 75.0 && DefaultPercentiles[5] == 90.0;
    assert DefaultPercentiles[6] == 95.0 && DefaultPercentiles[7] == 99.0;
  }

  /** The reported percentiles increase with their keys and stay within [min, max]. */
  lemma PercentilesOrdered(times: seq<real>, percentiles: Option<seq<real>>, p: real, q: real)
    requires 0 < |times| && (percentiles.Some? ==> PercentilesInRange(percentiles.value))
    requires p in CalculatePercentiles(times, percentiles) && q in CalculatePercentiles(times, percentiles)
    requires p <= q
    ensures var r := CalculatePercentiles(times, percentiles);
            Min(times) <= r[p] <= r[q] <= Max(times)
  {
    var r := CalculatePercentiles(times, percentiles);
    assert r[p] == Percentile(times, p) && r[q] == Percentile(times, q);
    PercentileMonotone(times, p, q);
    PercentileBounds(times, p);
    PercentileBounds(times, q);
  }

  // ---------------------------------------------------------------- distribution fit dispatch

  /** What fit_distribution hands to scipy: the display name and the sample the fit uses. */
  datatype FitRequest = FitRequest(distribution: string, data: seq<real>)

  /** `times[times > 0]`: the strictly positive samples in their original order. */
  function Positives(s: seq<real>): (r: seq<real>)
    ensures |r| == CountAbove(s, 0.0)
    ensures forall i :: 0 <= i < |r| ==> 0.0 < r[i]
    ensures multiset(r) <= multiset(s)
  {
    if |s| == 0 then []
    else
      var p := s[..|s| - 1];
      assert s == p + [s[|s| - 1]];
      Positives(p) + (if s[|s| - 1] > 0.0 then [s[|s| - 1]] else [])
  }

  /** A sample with no non-positive element is kept whole. */
  lemma {:induction false} PositivesOfPositive(s: seq<real>)
    requires forall i :: 0 <= i < |s| ==> 0.0 < s[i]
    ensures Positives(s) == s
  {
    if |s| > 0 {
      var p, x := s[..|s| - 1], s[|s| - 1];
      assert s == p + [x];
      PositivesOfPositive(p);
      assert Positives(s) == Positives(p) + [x];
    }
  }

  /** fit_distribution's dispatch on the name; the maximum-likelihood fit and the
      Kolmogorov-Smirnov test that follow are scipy's. */
  function FitDistribution(times: seq<real>, distribution: string): (r: Result<FitRequest>)
    ensures r.Ok? <==> distribution in {"normal", "lognormal", "weibull"}
    ensures r.Err? ==> r.message == "Unknown distribution: " + distribution
  {
    if distribution == "normal" then Ok(FitRequest("Normal", times))
    else if distribution == "lognormal" then Ok(FitRequest("Lognormal", Positives(times)))
    else if distribution == "weibull" then Ok(FitRequest("Weibull", times))
    else Err("Unknown distribution: " + distribution)
  }

  /** The lognormal fit sees exactly the strictly positive samples; the other two see all. */
  lemma FitDistributionData(times: seq<real>)
    ensures FitDistribution(times, "normal") == Ok(FitRequest("Normal", times))
    ensures FitDistribution(times, "weibull") == Ok(FitRequest("Weibull", times))
    ensures var d := FitDistribution(times, "lognormal").value.data;
            && |d| == CountAbove(times, 0.0)
            && (forall i :: 0 <= i < |d| ==> 0.0 < d[i])
            && multiset(d) <= multiset(times)
  {
    assert "lognormal" != "normal";
    assert "weibull" != "normal" && "weibull" != "lognormal";
  }

  // ---------------------------------------------------------------- ASET / RSET comparison

  /** What calculate_aset_rset_comparison reports. */
  datatype AsetRsetComparison = AsetRsetComparison(
    aset: real,
    meanRset: real,
    maxRset: real,
    meanSafetyMargin: real,
    minSafetyMargin: real,
    probabilitySuccess: real,
    riskProbability: real,
    safetyMargins: seq<real>)

  /** calculate_aset_rset_comparison: margins aset - t for every sample, success is the share of
      samples strictly below aset, the risk its complement.  numpy's max refuses an empty
      sample. */
  function CalculateAsetRsetComparison(times: seq<real>, aset: real): (c: AsetRsetComparison)
    requires 0 < |times|
    ensures c.aset == aset && c.meanRset == Mean(times) && c.maxRset == Max(times)
    ensures |c.safetyMargins| == |times|
    ensures forall i :: 0 <= i < |times| ==> c.safetyMargins[i] == aset - times[i]
    ensures c.minSafetyMargin == aset - c.maxRset
    ensures c.meanSafetyMargin == aset - c.meanRset
    ensures c.probabilitySuccess == SuccessFraction(times, aset)
    ensures c.probabilitySuccess + c.riskProbability == 1.0
    ensures 0.0 <= c.probabilitySuccess <= 1.0 && 0.0 <= c.riskProbability <= 1.0
  {
    var margins := SubFrom(aset, times);
    var success := SuccessFraction(times, aset);
    MinSubFrom(aset, times);
    MeanSubFrom(aset, times);
    AsetRsetComparison(aset, Mean(times), Max(times), Mean(margins), Min(margins), success,
                       1.0 - success, margins)
  }

  /** The risk is the share of samples not below aset: those equal to it count as failures. */
  lemma RiskIsShareNotBelow(times: seq<real>, aset: real)
    requires 0 < |times|
    ensures CalculateAsetRsetComparison(times, aset).riskProbability
            == Fraction(CountEqual(times, aset) + CountAbove(times, aset), |times|)
  {
    CountsPartition(times, aset);
    var n := |times| as real;
    var b := CountBelow(times, aset) as real;
    var e := (CountEqual(times, aset) + CountAbove(times, aset)) as real;
    Complement(b, n, e, b / n, e / n);
  }

  /** With b + e == n, one minus the share b/n is the share e/n. */
  lemma Complement(b: real, n: real, e: real, q: real, r: real)
    requires 0.0 < n && b + e == n && q == b / n && r == e / n
    ensures 1.0 - q == r
  {
    assert n * q == b;
    assert n * r == e;
    var c := 1.0 - q;
    assert n * c == n - b;
    Cancel(n, c, r);
  }

  // ---------------------------------------------------------------- individual risk

  /** What calculate_individual_risk reports. */
  datatype IndividualRisk = IndividualRisk(
    individualRisk: real,
    expectedFatalities: real,
    aset: real,
    population: int)

  /** calculate_individual_risk: the share of samples strictly above aset, and that share of the
      population as the expected number of fatalities. */
  function CalculateIndividualRisk(times: seq<real>, aset: real, population: int): (r: IndividualRisk)
    requires 0 < |times|
    ensures r.individualRisk == ExceedanceFraction(times, aset)
    ensures 0.0 <= r.individualRisk <= 1.0
    ensures r.expectedFatalities == r.individualRisk * population as real
    ensures r.aset == aset && r.population == population
  {
    var p := ExceedanceFraction(times, aset);
    IndividualRisk(p, p * population as real, aset, population)
  }

  /** For a non-negative population the expected fatalities lie between none and everybody. */
  lemma ExpectedFatalitiesBounded(times: seq<real>, aset: real, population: int)
    requires 0 < |times| && 0 <= population
    ensures var r := CalculateIndividualRisk(times, aset, population);
            0.0 <= r.expectedFatalities <= population as real
  {
    var p := ExceedanceFraction(times, aset);
    ScaleWithin(p, population as real);
  }

  /** The individual risk counts samples strictly above aset, the comparison's risk counts those
      not strictly below it: the first never exceeds the second, and they agree exactly when no
      sample equals aset. */
  lemma IndividualRiskVersusComparison(times: seq<real>, aset: real, population: int)
    requires 0 < |times|
    ensures var ir := CalculateIndividualRisk(times, aset, population).individualRisk;
            var risk := CalculateAsetRsetComparison(times, aset).riskProbability;
            && ir <= risk
            && (ir == risk <==> forall i :: 0 <= i < |times| ==> times[i] != aset)
  {
    var n := |times|;
    var above, equal := CountAbove(times, aset), CountEqual(times, aset);
    RiskIsShareNotBelow(times, aset);
    CountEqualZero(times, aset);
    CountsPartition(times, aset);
    FractionMonotone(above, equal + above, n);
    if equal > 0 {
      FractionInjective(above, equal + above, n);
    }
  }

  lemma FractionInjective(c1: nat, c2: nat, n: nat)
    requires 0 < n && c1 < c2
    ensures Fraction(c1, n) != Fraction(c2, n)
  {
    DivLess(c1 as real, c2 as real, n as real);
  }

  // ---------------------------------------------------------------- the ASET sweep

  /** `np.linspace(start, stop, num)`: num evenly spaced values from start to stop inclusive. */
  function Linspace(start: real, stop: real, num: nat): (r: seq<real>)
    ensures |r| == num
    ensures 0 < num ==> r[0] == start
    ensures 1 < num ==> r[num - 1] == stop
  {
    if num <= 1 then seq(num, i => start)
    else
      var step := (stop - start) / (num - 1) as real;
      LastStep(start, stop, (num - 1) as real);
      seq(num, i requires 0 <= i < num => start + i as real * step)
  }

  lemma LastStep(start: real, stop: real, m: real)
    requires 0.0 < m
    ensures start + m * ((stop - start) / m) == stop
  {
  }

  /** For start <= stop the values are non-decreasing. */
  lemma LinspaceAscending(start: real, stop: real, num: nat)
    requires start <= stop
    ensures forall i, j :: 0 <= i <= j < num ==> Linspace(start, stop, num)[i] <= Linspace(start, stop, num)[j]
  {
    var r := Linspace(start, stop, num);
    if 1 < num {
      var step := (stop - start) / (num - 1) as real;
      assert 0.0 <= step;
      forall i, j | 0 <= i <= j < num
        ensures r[i] <= r[j]
      {
        StepsOrdered(start, step, i as real, j as real, r[i], r[j]);
      }
    }
  }

  lemma StepsOrdered(start: real, step: real, x: real, y: real, u: real, v: real)
    requires 0.0 <= step && x <= y && u == start + x * step && v == start + y * step
    ensures u <= v
  {
    MulMonotone(x, y, step);
  }

  /** The ASET values of the sweep: the given ones, or 100 values from half the shortest to
      one and a half times the longest time. */
  function SweepValues(times: seq<real>, asetValues: Option<seq<real>>): seq<real>
    requires 0 < |times|
  {
    match asetValues
    case Some(v) => v
    case None => Linspace(Min(times) * 0.5, Max(times) * 1.5, 100)
  }

  /** For non-negative times the default sweep starts at Min/2, ends at 1.5 Max and ascends. */
  lemma DefaultSweepAscending(times: seq<real>)
    requires 0 < |times| && forall i :: 0 <= i < |times| ==> 0.0 <= times[i]
    ensures var v := SweepValues(times, None);
            && |v| == 100 && v[0] == Min(times) * 0.5 && v[99] == Max(times) * 1.5
            && forall i, j :: 0 <= i <= j < 100 ==> v[i] <= v[j]
  {
    var k :| 0 <= k < |times| && times[k] == Min(times);
    assert Min(times) <= Max(times);
    LinspaceAscending(Min(times) * 0.5, Max(times) * 1.5, 100);
  }

  /** What calculate_fntds_curve reports. */
  datatype FntdsCurve = FntdsCurve(asetValues: seq<real>, cumulativeRisk: seq<real>)

  /** calculate_fntds_curve: for each ASET value in turn, the share of samples strictly above it;
      for ascending ASET values the risks do not increase. */
  method CalculateFntdsCurve(times: seq<real>, asetValues: Option<seq<real>>) returns (curve: FntdsCurve)
    requires 0 < |times|
    ensures curve.asetValues == SweepValues(times, asetValues)
    ensures |curve.cumulativeRisk| == |curve.asetValues|
    ensures forall i :: 0 <= i < |curve.asetValues| ==>
              curve.cumulativeRisk[i] == ExceedanceFraction(times, curve.asetValues[i])
    ensures forall i :: 0 <= i < |curve.asetValues| ==> 0.0 <= curve.cumulativeRisk[i] <= 1.0
    ensures (forall i, j :: 0 <= i <= j < |curve.asetValues| ==> curve.asetValues[i] <= curve.asetValues[j]) ==>
              forall i, j :: 0 <= i <= j < |curve.asetValues| ==> curve.cumulativeRisk[j] <= curve.cumulativeRisk[i]
  {
    var values := SweepValues(times, asetValues);
    var cumulativeRisk: seq<real> := [];
    for i := 0 to |values|
      invariant |cumulativeRisk| == i
      invariant forall k :: 0 <= k < i ==> cumulativeRisk[k] == ExceedanceFraction(times, values[k])
    {
      var risk := ExceedanceFraction(times, values[i]);
      cumulativeRisk := cumulativeRisk + [risk];
    }
    if forall i, j :: 0 <= i <= j < |values| ==> values[i] <= values[j] {
      forall i, j | 0 <= i <= j < |values|
        ensures cumulativeRisk[j] <= cumulativeRisk[i]
      {
        ExceedanceAntitone(times, values[i], values[j]);
      }
    }
    curve := FntdsCurve(values, cumulativeRisk);
  }

  // ---------------------------------------------------------------- several runs together

  /** The evacuation times of all runs, run after run. */
  function ConcatTimes(results: seq<SimulationResult>): seq<real> {
    if |results| == 0 then []
    else ConcatTimes(results[..|results| - 1]) + results[|results| - 1].evacuationTimes
  }

  /** Total number of evacuation times over all runs. */
  function TotalLength(results: seq<SimulationResult>): nat {
    if |results| == 0 then 0
    else TotalLength(results[..|results| - 1]) + |results[|results| - 1].evacuationTimes|
  }

  /** The pooled sample holds every run's times: its length is the total of the run lengths. */
  lemma {:induction false} ConcatTimesLength(results: seq<SimulationResult>)
    ensures |ConcatTimes(results)| == TotalLength(results)
  {
    if |results| > 0 {
      ConcatTimesLength(results[..|results| - 1]);
    }
  }

  /** Pooling respects run order: pooling two batches is pooling each and concatenating. */
  lemma {:induction false} ConcatTimesAppend(a: seq<SimulationResult>, b: seq<SimulationResult>)
    ensures ConcatTimes(a + b) == ConcatTimes(a) + ConcatTimes(b)
    decreases |b|
  {
    if |b| == 0 {
      assert a + b == a;
    } else {
      var b0 := b[..|b| - 1];
      assert (a + b)[..|a + b| - 1] == a + b0;
      ConcatTimesAppend(a, b0);
    }
  }

  /** Runs of n agents each pool to n times the number of runs. */
  lemma {:induction false} TotalLengthUniform(results: seq<SimulationResult>, n: nat)
    requires forall i :: 0 <= i < |results| ==> |results[i].evacuationTimes| == n
    ensures TotalLength(results) == |results| * n
  {
    if |results| > 0 {
      var p := results[..|results| - 1];
      assert forall i :: 0 <= i < |p| ==> p[i] == results[i];
      TotalLengthUniform(p, n);
      assert |results| * n == |p| * n + n;
    }
  }

  /** The three distributions analyze_multiple_simulations tries, in order. */
  const DistributionNames: seq<string> := ["normal", "lognormal", "weibull"]

  /** What analyze_multiple_simulations reports. */
  datatype MultipleSimulationAnalysis = MultipleSimulationAnalysis(
    allEvacuationTimes: seq<real>,
    descriptiveStatistics: DescriptiveStatistics,
    percentiles: map<real, real>,
    distributions: map<string, Result<FitRequest>>,
    numSimulations: nat,
    totalEvacuations: nat)

  /** The pooling loop of analyze_multiple_simulations: one list extended with every run's
      times, in run order. */
  method PoolEvacuationTimes(simulationResults: seq<SimulationResult>) returns (allTimes: seq<real>)
    ensures allTimes == ConcatTimes(simulationResults)
    ensures |allTimes| == TotalLength(simulationResults)
  {
    allTimes := [];
    for i := 0 to |simulationResults|
      invariant allTimes == ConcatTimes(simulationResults[..i])
    {
      assert simulationResults[..i + 1][..i] == simulationResults[..i];
      allTimes := allTimes + simulationResults[i].evacuationTimes;
    }
    assert simulationResults[..|simulationResults|] == simulationResults;
    ConcatTimesLength(simulationResults);
  }

  /** The fitting loop of analyze_multiple_simulations: one entry per distribution name, each
      holding that fit of the pooled sample. */
  method FitDistributions(times: seq<real>) returns (distributions: map<string, Result<FitRequest>>)
    ensures distributions.Keys == {"normal", "lognormal", "weibull"}
    ensures forall d :: d in distributions ==> distributions[d] == FitDistribution(times, d) && distributions[d].Ok?
  {
    distributions := map[];
    for j := 0 to |DistributionNames|
      invariant forall k :: 0 <= k < j ==> DistributionNames[k] in distributions
      invariant forall d :: d in distributions ==> d in DistributionNames[..j] && distributions[d] == FitDistribution(times, d)
    {
      var name := DistributionNames[j];
      distributions := distributions[name := FitDistribution(times, name)];
    }
    assert DistributionNames == ["normal", "lognormal", "weibull"];
    assert DistributionNames[..3] == DistributionNames;
    assert DistributionNames[0] == "normal" && DistributionNames[0] in distributions;
    assert DistributionNames[1] == "lognormal" && DistributionNames[1] in distributions;
    assert DistributionNames[2] == "weibull" && DistributionNames[2] in distributions;
    assert forall d :: d in distributions ==> d == "normal" || d == "lognormal" || d == "weibull";
  }

  /** analyze_multiple_simulations: pool every run's times in run order, take the descriptive
      statistics and default percentiles of the pooled sample, and try each of the three fits.
      numpy's min and max refuse an empty pooled sample. */
  method AnalyzeMultipleSimulations(simulationResults: seq<SimulationResult>)
    returns (analysis: MultipleSimulationAnalysis)
    requires 0 < TotalLength(simulationResults)
    ensures analysis.allEvacuationTimes == ConcatTimes(simulationResults)
    ensures analysis.totalEvacuations == TotalLength(simulationResults) == |analysis.allEvacuationTimes|
    ensures analysis.numSimulations == |simulationResults|
    ensures analysis.descriptiveStatistics == CalculateDescriptiveStatistics(analysis.allEvacuationTimes)
    ensures analysis.percentiles == CalculatePercentiles(analysis.allEvacuationTimes, None)
    ensures analysis.distributions.Keys == {"normal", "lognormal", "weibull"}
    ensures forall d :: d in analysis.distributions ==>
              analysis.distributions[d] == FitDistribution(analysis.allEvacuationTimes, d)
              && analysis.distributions[d].Ok?
  {
    var allTimes := PoolEvacuationTimes(simulationResults);
    var descriptive := CalculateDescriptiveStatistics(allTimes);
    var percentiles := CalculatePercentiles(allTimes, None);
    var distributions := FitDistributions(allTimes);
    analysis := MultipleSimulationAnalysis(allTimes, descriptive, percentiles, distributions,
                                           |simulationResults|, |allTimes|);
  }
}

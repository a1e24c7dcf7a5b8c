/** The tunnel QRA calculator: traffic aggregation, accident frequency F, fatalities per accident
    N, the fractional effective dose, ASET and RSET, the F-N classification and the run that stores
    one verdict per tunnel (src/logic/calculator.py). */
module Calculator {
  import opened Numerics
  import opened Wrappers
  import opened Models

  /** F-N criteria: the unacceptable line is log10(F) = A + B log10(N), the acceptable line is
      log10(F) = C + D log10(N).  The calculator fixes these four constants. */
  const UnacceptableA: int := -2
  const UnacceptableB: int := -1
  const AcceptableC: int := -4
  const AcceptableD: int := -1

  /** accidents per vehicle-km */
  const AccidentRate: real := 0.0000001
  /** detection and alarm time, seconds */
  const DetectAlarmTime: real := 30.0

  /** lethal limits of the simplified dose model */
  const CoLethal: real := 12500.0
  const TempLethal: real := 100.0
  const VisLethal: real := 0.5

  const MissingConfiguration: string := "Configuration data missing."
  const CompletedStatus: string := "Completed (Full QRA Procedure)"

  // ---------------------------------------------------------------- total PCU

  function VehiclePcu(v: VehicleClassification): real {
    v.pcu * (v.volumePlus + v.volumeMinus)
  }

  /** Sum of `pcu * (volume_plus + volume_minus)` over the vehicle classes, in list order. */
  function PcuSum(vs: seq<VehicleClassification>): real {
    if |vs| == 0 then 0.0 else PcuSum(vs[..|vs| - 1]) + VehiclePcu(vs[|vs| - 1])
  }

  /** calculate_total_pcu: 0.0 for a missing tunnel, otherwise the PCU-weighted daily volume. */
  method CalculateTotalPcu(tunnel: Option<TunnelConfiguration>) returns (total: real)
    ensures tunnel.None? ==> total == 0.0
    ensures tunnel.Some? ==> total == PcuSum(tunnel.value.vehicleClassifications)
  {
    if tunnel.None? {
      return 0.0;
    }
    var vs := tunnel.value.vehicleClassifications;
    total := 0.0;
    var i := 0;
    while i < |vs|
      invariant 0 <= i <= |vs|
      invariant total == PcuSum(vs[..i])
    {
      assert vs[..i + 1][..i] == vs[..i];
      total := total + vs[i].pcu * (vs[i].volumePlus + vs[i].volumeMinus);
      i := i + 1;
    }
    assert vs[..|vs|] == vs;
  }

  /** The data-model invariant of a vehicle class: PCU and both volumes are non-negative. */
  ghost predicate NonNegativeClass(v: VehicleClassification) {
    0.0 <= v.pcu && 0.0 <= v.volumePlus && 0.0 <= v.volumeMinus
  }

  lemma MulNonNegative(a: real, b: real)
    requires 0.0 <= a && 0.0 <= b
    ensures 0.0 <= a * b
  {
  }

  /** The total PCU of non-negative classes is non-negative. */
  lemma {:induction false} PcuSumNonNegative(vs: seq<VehicleClassification>)
    requires forall i :: 0 <= i < |vs| ==> NonNegativeClass(vs[i])
    ensures 0.0 <= PcuSum(vs)
  {
    if |vs| > 0 {
      var v := vs[|vs| - 1];
      PcuSumNonNegative(vs[..|vs| - 1]);
      MulNonNegative(v.pcu, v.volumePlus + v.volumeMinus);
    }
  }

  /** With positive PCU factors and non-negative volumes, the total PCU is zero exactly when
      every volume is zero. */
  lemma {:induction false} PcuSumZeroIffNoTraffic(vs: seq<VehicleClassification>)
    requires forall i :: 0 <= i < |vs| ==> NonNegativeClass(vs[i]) && 0.0 < vs[i].pcu
    ensures PcuSum(vs) == 0.0 <==>
            forall i :: 0 <= i < |vs| ==> vs[i].volumePlus == 0.0 && vs[i].volumeMinus == 0.0
  {
    if |vs| > 0 {
      var p, v := vs[..|vs| - 1], vs[|vs| - 1];
      PcuSumZeroIffNoTraffic(p);
      PcuSumNonNegative(p);
      var w := v.volumePlus + v.volumeMinus;
      MulNonNegative(v.pcu, w);
      if w > 0.0 {
        var pw := v.pcu * w;
        assert pw > 0.0;
      }
      assert forall i :: 0 <= i < |p| ==> p[i] == vs[i];
    }
  }

  // ---------------------------------------------------------------- accident frequency F

  /** Total daily traffic: the sum of both directions' volumes over the vehicle classes. */
  function DailyTraffic(vs: seq<VehicleClassification>): real {
    if |vs| == 0 then 0.0
    else DailyTraffic(vs[..|vs| - 1]) + (vs[|vs| - 1].volumePlus + vs[|vs| - 1].volumeMinus)
  }

  /** calculate_accident_frequency: annual traffic times length in km times the accident rate;
      0.0 for a missing tunnel. */
  function CalculateAccidentFrequency(tunnel: Option<TunnelConfiguration>): (f: real)
    ensures tunnel.None? ==> f == 0.0
    ensures tunnel.Some? && DailyTraffic(tunnel.value.vehicleClassifications) == 0.0 ==> f == 0.0
  {
    match tunnel
    case None => 0.0
    case Some(t) =>
      var annualTraffic := DailyTraffic(t.vehicleClassifications) * 365.0;
      annualTraffic * (t.length / 1000.0) * AccidentRate
  }

  /** F is linear in the tunnel length: scaling the length by k scales F by k. */
  lemma AccidentFrequencyLinearInLength(t: TunnelConfiguration, k: real)
    ensures CalculateAccidentFrequency(Some(t.(length := k * t.length)))
            == k * CalculateAccidentFrequency(Some(t))
  {
    var d, l := DailyTraffic(t.vehicleClassifications), t.length;
    var kl := k * l;
    assert d * 365.0 * (kl / 1000.0) * AccidentRate == k * (d * 365.0 * (l / 1000.0) * AccidentRate);
  }

  /** F depends on the traffic mix only through the total daily traffic, and proportionally:
      a tunnel of the same length carrying k times the traffic has k times the frequency. */
  lemma AccidentFrequencyLinearInTraffic(t: TunnelConfiguration, u: TunnelConfiguration, k: real)
    requires u.length == t.length
    requires DailyTraffic(u.vehicleClassifications) == k * DailyTraffic(t.vehicleClassifications)
    ensures CalculateAccidentFrequency(Some(u)) == k * CalculateAccidentFrequency(Some(t))
  {
    var d, l := DailyTraffic(t.vehicleClassifications), t.length;
    var kd := k * d;
    assert kd * 365.0 * (l / 1000.0) * AccidentRate == k * (d * 365.0 * (l / 1000.0) * AccidentRate);
  }

  /** A 410 m tunnel carrying 10,000 vehicles a day has F = 10000 * 365 * 0.41 * 1e-7. */
  lemma AccidentFrequencyScenario(t: TunnelConfiguration)
    requires t.length == 410.0 && |t.vehicleClassifications| == 1
    requires t.vehicleClassifications[0].volumePlus + t.vehicleClassifications[0].volumeMinus == 10000.0
    ensures CalculateAccidentFrequency(Some(t)) == 0.14965
  {
    var vs := t.vehicleClassifications;
    assert vs[..0] == [];
    assert DailyTraffic(vs) == 10000.0;
  }

  // ---------------------------------------------------------------- fatalities N

  /** Persons per day: occupancy times both directions' volumes, summed over the classes. */
  function TotalOccupancy(vs: seq<VehicleClassification>): real {
    if |vs| == 0 then 0.0
    else
      var v := vs[|vs| - 1];
      TotalOccupancy(vs[..|vs| - 1]) + v.occupancy as real * (v.volumePlus + v.volumeMinus)
  }

  /** The share of occupants assumed to die for a finite safety margin ASET - RSET. */
  function FatalityRatio(margin: real): real {
    if margin > 0.0 then 0.01
    else 0.10 + (if margin < 0.0 then -margin else margin) / 1000.0
  }

  /** Python's max(1.0, x) on a finite x. */
  function AtLeastOne(x: real): real {
    if x > 1.0 then x else 1.0
  }

  /** calculate_fatalities.  An infinite RSET yields an infinite negative margin and an infinite
      ratio: the product with a positive occupancy is infinite; with zero occupancy it is NaN and
      with a negative one minus infinity, and max(1.0, .) keeps 1.0 for both.  A missing tunnel
      makes the source raise, so the tunnel record is required here. */
  function CalculateFatalities(tunnel: TunnelConfiguration, asetS: real, rsetS: ExtReal): (n: ExtReal)
    ensures n.Ge(1.0)
    ensures n == PosInf <==> rsetS == PosInf && TotalOccupancy(tunnel.vehicleClassifications) > 0.0
  {
    var occupancy := TotalOccupancy(tunnel.vehicleClassifications);
    match SubExt(asetS, rsetS)
    case Fin(margin) => Fin(AtLeastOne(occupancy * FatalityRatio(margin)))
    case PosInf => Fin(AtLeastOne(occupancy * 0.01))
    case NegInf => if occupancy > 0.0 then PosInf else Fin(1.0)
  }

  /** The fatality ratio is exactly 0.01 for a positive margin; otherwise it is 0.10 plus a
      penalty of |margin|/1000, so a margin of exactly zero already takes the penalty branch. */
  lemma FatalityRatioCases(margin: real)
    ensures margin > 0.0 ==> FatalityRatio(margin) == 0.01
    ensures margin <= 0.0 ==> FatalityRatio(margin) == 0.10 - margin / 1000.0
    ensures FatalityRatio(0.0) == 0.10
  {
  }

  /** A larger safety margin never gives a larger fatality ratio. */
  lemma FatalityRatioAntitone(m1: real, m2: real)
    requires m1 <= m2
    ensures FatalityRatio(m2) <= FatalityRatio(m1)
  {
  }

  /** The penalty is unbounded: below a margin of -900 s the ratio exceeds one, so N can exceed
      the occupancy it is a share of. */
  lemma FatalityRatioExceedsOne(margin: real)
    ensures FatalityRatio(margin) > 1.0 <==> margin < -900.0
  {
  }

  /** With a finite RSET below ASET the fatalities are max(1, 1% of the occupancy). */
  lemma FatalitiesWithPositiveMargin(tunnel: TunnelConfiguration, asetS: real, rsetS: real)
    requires asetS - rsetS > 0.0
    ensures CalculateFatalities(tunnel, asetS, Fin(rsetS))
            == Fin(AtLeastOne(TotalOccupancy(tunnel.vehicleClassifications) * 0.01))
  {
  }

  // ---------------------------------------------------------------- FED

  /** calculate_fed: the sum of the CO, heat and smoke fractional doses at `timeS`.  The source
      divides by the visibility, so it must not be zero. */
  function CalculateFed(coPpm: real, tempC: real, visibilityM: real, timeS: real): (fed: real)
    requires visibilityM != 0.0
    ensures 0.0 <= coPpm && 0.0 <= tempC && 0.0 < visibilityM && 0.0 <= timeS ==> 0.0 <= fed
  {
    var minutes := timeS / 60.0;
    var coExposure := (coPpm / CoLethal) * minutes;
    var tempExposure := (tempC / TempLethal) * minutes;
    var smokeExposure := (1.0 / visibilityM) * VisLethal * minutes;
    MulNonNegativeWhen(coPpm / CoLethal, minutes);
    MulNonNegativeWhen(tempC / TempLethal, minutes);
    MulNonNegativeWhen((1.0 / visibilityM) * VisLethal, minutes);
    coExposure + tempExposure + smokeExposure
  }

  lemma MulNonNegativeWhen(a: real, b: real)
    ensures 0.0 <= a && 0.0 <= b ==> 0.0 <= a * b
  {
  }

  /** The dose grows linearly with the exposure time. */
  lemma FedLinearInTime(coPpm: real, tempC: real, visibilityM: real, timeS: real, k: real)
    requires visibilityM != 0.0
    ensures CalculateFed(coPpm, tempC, visibilityM, k * timeS) == k * CalculateFed(coPpm, tempC, visibilityM, timeS)
  {
    var a, b, c := coPpm / CoLethal, tempC / TempLethal, (1.0 / visibilityM) * VisLethal;
    var m := timeS / 60.0;
    var km := k * timeS / 60.0;
    assert km == k * m;
    assert a * km + b * km + c * km == k * (a * m + b * m + c * m);
  }

  // ---------------------------------------------------------------- ASET

  /** The t-squared growth coefficient (kW/s^2) of a growth-rate label; Medium when unknown. */
  function GrowthFactor(growthRateType: string): (alpha: real)
    ensures 0.0 < alpha
    ensures growthRateType !in {"Slow", "Medium", "Fast", "Ultra-Fast"} ==> alpha == 0.01172
  {
    if growthRateType == "Slow" then 0.00293
    else if growthRateType == "Medium" then 0.01172
    else if growthRateType == "Fast" then 0.04688
    else if growthRateType == "Ultra-Fast" then 0.1875
    else 0.01172
  }

  /** Time at which the t-squared fire Q = alpha t^2 reaches the heat release rate, in seconds. */
  function TimeToPeak(hrrMw: real, growthRateType: string, sqrt: real -> real): (tPeak: real)
    requires IsSqrtFn(sqrt) && 0.0 <= hrrMw
    ensures 0.0 <= tPeak
    ensures GrowthFactor(growthRateType) * (tPeak * tPeak) == hrrMw * 1000.0
  {
    var alpha := GrowthFactor(growthRateType);
    var q := hrrMw * 1000.0;
    assert 0.0 <= q / alpha;
    var t := sqrt(q / alpha);
    assert alpha * (q / alpha) == q;
    t
  }

  function Min3(a: real, b: real, c: real): real {
    var ab := if a <= b then a else b;
    if ab <= c then ab else c
  }

  /** The three tenability proxies scaled from t_peak, before clamping. */
  function AsetBeforeClamp(har: HarEvacAnalysis, tPeak: real): real {
    var tTemp := tPeak * (har.temperatureLimit / 60.0);
    var tVis := tPeak * (har.visibilityLimit / 10.0);
    var tFed := tPeak * 0.8;
    Min3(tTemp, tVis, tFed)
  }

  /** max(60, min(v, 1800)) */
  function ClampAset(v: real): real {
    var capped := if v <= 1800.0 then v else 1800.0;
    if 60.0 >= capped then 60.0 else capped
  }

  /** calculate_aset: 0.0 when the analysis or the tunnel is missing, otherwise the smallest
      proxy time clamped into [60, 1800] seconds.  The square root of a negative heat release
      rate raises in the source, so a present analysis needs a non-negative one. */
  function CalculateAset(har: Option<HarEvacAnalysis>, tunnel: Option<TunnelConfiguration>,
                         hrrMw: real, growthRateType: string, sqrt: real -> real): (aset: real)
    requires IsSqrtFn(sqrt)
    requires har.Some? ==> 0.0 <= hrrMw
    ensures har.None? || tunnel.None? ==> aset == 0.0
    ensures har.Some? && tunnel.Some? ==> 60.0 <= aset <= 1800.0
  {
    if har.None? then 0.0
    else
      var tPeak := TimeToPeak(hrrMw, growthRateType, sqrt);
      if tunnel.None? then 0.0
      else ClampAset(AsetBeforeClamp(har.value, tPeak))
  }

  /** Before clamping, ASET is one of the three proxies, at most each of them, and so never more
      than the dose-based 0.8 t_peak. */
  lemma AsetBeforeClampBounds(har: HarEvacAnalysis, tPeak: real)
    ensures var v := AsetBeforeClamp(har, tPeak);
            && v <= tPeak * (har.temperatureLimit / 60.0)
            && v <= tPeak * (har.visibilityLimit / 10.0)
            && v <= 0.8 * tPeak
            && (v == tPeak * (har.temperatureLimit / 60.0) || v == tPeak * (har.visibilityLimit / 10.0)
                || v == 0.8 * tPeak)
  {
  }

  /** Clamping leaves a value already inside [60, 1800] unchanged and otherwise moves it to the
      nearer end. */
  lemma ClampAsetCases(v: real)
    ensures 60.0 <= v <= 1800.0 ==> ClampAset(v) == v
    ensures v < 60.0 ==> ClampAset(v) == 60.0
    ensures v > 1800.0 ==> ClampAset(v) == 1800.0
  {
  }

  /** With the default analysis (10 MW, Medium growth, 60 C, 10 m) t_peak is about 924 s and
      ASET is the dose-based proxy 0.8 t_peak, between 738.96 s and 739.04 s. */
  lemma AsetDefaultScenario(tunnel: TunnelConfiguration, sqrt: real -> real)
    requires IsSqrtFn(sqrt)
    ensures var har := NewHarEvacAnalysis(1, tunnel.id);
            var aset := CalculateAset(Some(har), Some(tunnel), har.heatReleaseRate, har.fireGrowthRate, sqrt);
            && aset == 0.8 * TimeToPeak(10.0, "Medium", sqrt)
            && 738.96 < aset < 739.04
  {
    var t := TimeToPeak(10.0, "Medium", sqrt);
    var tt := t * t;
    assert 0.01172 * tt == 10000.0;
    assert 853221.69 < tt < 853406.44;
    SquareLessIffLess(923.7, t);
    SquareLessIffLess(t, 923.8);
  }

  // ---------------------------------------------------------------- RSET

  /** calculate_rset: detection/alarm plus pre-movement plus the walk over half the tunnel;
      infinite when the walking speed is not positive; 0.0 when a record is missing. */
  function CalculateRset(har: Option<HarEvacAnalysis>, tunnel: Option<TunnelConfiguration>): (rset: ExtReal)
    ensures har.None? || tunnel.None? ==> rset == Fin(0.0)
    ensures har.Some? && tunnel.Some? ==> (rset == PosInf <==> har.value.evacSpeedWalking <= 0.0)
    ensures !rset.NegInf?
  {
    if har.None? || tunnel.None? then Fin(0.0)
    else
      var h := har.value;
      var preMovement := h.reactionTime + h.hesitationTime;
      var travelDistance := tunnel.value.length / 2.0;
      if h.evacSpeedWalking <= 0.0 then PosInf
      else Fin(DetectAlarmTime + preMovement + travelDistance / h.evacSpeedWalking)
  }

  /** For a positive walking speed, what RSET leaves after the detection and pre-movement
      times is the time in which that speed covers half the tunnel. */
  lemma RsetTravelCoversHalfTunnel(har: HarEvacAnalysis, tunnel: TunnelConfiguration)
    requires 0.0 < har.evacSpeedWalking
    ensures var rset := CalculateRset(Some(har), Some(tunnel));
            && rset.Fin?
            && (rset.r - DetectAlarmTime - har.reactionTime - har.hesitationTime) * har.evacSpeedWalking
               == tunnel.length / 2.0
  {
    var travel := (tunnel.length / 2.0) / har.evacSpeedWalking;
    assert travel * har.evacSpeedWalking == tunnel.length / 2.0;
  }

  /** Reaction 60 s, hesitation 120 s, walking speed 1 m/s and a 410 m tunnel (the defaults)
      give RSET = 30 + 180 + 205 = 415 s. */
  lemma RsetDefaultScenario(id: int)
    ensures CalculateRset(Some(NewHarEvacAnalysis(id, id)), Some(NewTunnelConfiguration(id))) == Fin(415.0)
  {
  }

  // ---------------------------------------------------------------- F-N classification

  /** F on the unacceptable line at N: 10^(A + B log10 N) = 10^A * N^B. */
  function UnacceptableBoundary(n: real): real
    requires 0.0 < n
  {
    Pow10(UnacceptableA) * Power(n, UnacceptableB)
  }

  /** F on the acceptable line at N: 10^(C + D log10 N) = 10^C * N^D. */
  function AcceptableBoundary(n: real): real
    requires 0.0 < n
  {
    Pow10(AcceptableC) * Power(n, AcceptableD)
  }

  /** _compare_risk_to_criteria.  Comparing log10(F) with A + B log10(N) is comparing F with
      10^A N^B, because 10^x is strictly increasing; an infinite N puts both lines at minus
      infinity, so any positive F is above them. */
  function CompareRiskToCriteria(f: real, n: ExtReal): (r: (RiskStatus, bool))
    ensures r.0 == Error <==> f <= 0.0 || !n.Gt(0.0)
    ensures r.1 <==> r.0 != Acceptable
    ensures r.0 != NotEvaluated
  {
    if f <= 0.0 || !n.Gt(0.0) then (Error, true)
    else
      match n
      case Fin(v) =>
        if f > UnacceptableBoundary(v) then (Unacceptable, true)
        else if f > AcceptableBoundary(v) then (Alarp, true)
        else (Acceptable, false)
      case _ => (Unacceptable, true)
  }

  /** Position of a status along increasing F: Acceptable, then ALARP, then Unacceptable. */
  function RiskRank(s: RiskStatus): int {
    match s
    case Acceptable => 0
    case Alarp => 1
    case Unacceptable => 2
    case _ => 3
  }

  /** With the fixed constants the two lines are 0.01/N and 0.0001/N: the unacceptable one is
      a hundred times the acceptable one, and so strictly above it. */
  lemma BoundaryLines(n: real)
    requires 0.0 < n
    ensures UnacceptableBoundary(n) == 0.01 / n
    ensures AcceptableBoundary(n) == 0.0001 / n
    ensures UnacceptableBoundary(n) == 100.0 * AcceptableBoundary(n)
    ensures AcceptableBoundary(n) < UnacceptableBoundary(n)
  {
    assert Pow10(-2) == 0.01;
    assert Pow10(-4) == 0.0001;
    assert NatPower(1.0 / n, 1) == 1.0 / n * NatPower(1.0 / n, 0);
    assert Power(n, -1) == 1.0 / n;
  }

  /** For positive F and finite positive N the status is decided by the two lines, each
      comparison strict: F on the unacceptable line is ALARP, F on the acceptable line is
      Acceptable. */
  lemma ClassifierRegions(f: real, n: real)
    requires 0.0 < f && 0.0 < n
    ensures CompareRiskToCriteria(f, Fin(n)).0 == Unacceptable <==> f > UnacceptableBoundary(n)
    ensures CompareRiskToCriteria(f, Fin(n)).0 == Alarp <==>
              AcceptableBoundary(n) < f <= UnacceptableBoundary(n)
    ensures CompareRiskToCriteria(f, Fin(n)).0 == Acceptable <==> f <= AcceptableBoundary(n)
    ensures CompareRiskToCriteria(UnacceptableBoundary(n), Fin(n)).0 == Alarp
    ensures CompareRiskToCriteria(AcceptableBoundary(n), Fin(n)).0 == Acceptable
  {
    BoundaryLines(n);
    assert 0.0 < AcceptableBoundary(n);
  }

  /** For a fixed N, raising F never moves the status backwards along Acceptable, ALARP,
      Unacceptable. */
  lemma ClassifierMonotoneInF(f1: real, f2: real, n: ExtReal)
    requires 0.0 < f1 <= f2 && n.Gt(0.0)
    ensures RiskRank(CompareRiskToCriteria(f1, n).0) <= RiskRank(CompareRiskToCriteria(f2, n).0)
    ensures RiskRank(CompareRiskToCriteria(f2, n).0) <= 2
  {
    if n.Fin? {
      BoundaryLines(n.r);
    }
  }

  /** An infinite fatality count over a positive frequency is Unacceptable. */
  lemma ClassifierInfiniteN(f: real)
    requires 0.0 < f
    ensures CompareRiskToCriteria(f, PosInf) == (Unacceptable, true)
  {
  }

  /** At N = 10^j the unacceptable and acceptable lines are 10^(A + B j) and 10^(C + D j). */
  lemma BoundariesAtPowerOfTen(j: int)
    ensures 0.0 < Pow10(j)
    ensures UnacceptableBoundary(Pow10(j)) == Pow10(UnacceptableA + UnacceptableB * j)
    ensures AcceptableBoundary(Pow10(j)) == Pow10(AcceptableC + AcceptableD * j)
  {
    var p := Pow10(j);
    Pow10Positive(j);
    PowerMinusOne(p);
    Pow10AddTo(UnacceptableA + UnacceptableB * j, j, UnacceptableA);
    CancelProduct(Pow10(UnacceptableA + UnacceptableB * j), p, Pow10(UnacceptableA), Power(p, UnacceptableB));
    Pow10AddTo(AcceptableC + AcceptableD * j, j, AcceptableC);
    CancelProduct(Pow10(AcceptableC + AcceptableD * j), p, Pow10(AcceptableC), Power(p, AcceptableD));
  }

  lemma PowerMinusOne(n: real)
    requires 0.0 < n
    ensures Power(n, -1) == 1.0 / n
  {
    assert NatPower(1.0 / n, 1) == 1.0 / n * NatPower(1.0 / n, 0);
  }

  lemma CancelProduct(x: real, p: real, c: real, y: real)
    requires 0.0 < p && x * p == c && y == 1.0 / p
    ensures c * y == x
  {
  }

  /** On the powers-of-ten lattice, where log10 F = i and log10 N = j exactly, the classifier is
      the log-form comparison written in the source: Unacceptable iff i > A + B j, ALARP iff
      C + D j < i <= A + B j, Acceptable iff i <= C + D j. */
  lemma ClassifierLogForm(i: int, j: int)
    ensures var s := CompareRiskToCriteria(Pow10(i), Fin(Pow10(j))).0;
            && (s == Unacceptable <==> i > UnacceptableA + UnacceptableB * j)
            && (s == Alarp <==> AcceptableC + AcceptableD * j < i <= UnacceptableA + UnacceptableB * j)
            && (s == Acceptable <==> i <= AcceptableC + AcceptableD * j)
  {
    Pow10Positive(i);
    BoundariesAtPowerOfTen(j);
    ClassifierRegions(Pow10(i), Pow10(j));
    Pow10Less(UnacceptableA + UnacceptableB * j, i);
    Pow10Less(AcceptableC + AcceptableD * j, i);
  }

  // ---------------------------------------------------------------- F-N boundary table

  datatype FnCurveData = FnCurveData(nValues: seq<int>, unacceptableF: seq<real>, acceptableF: seq<real>)

  const FnCurveN: seq<int> := [1, 10, 100, 1000, 10000]

  /** generate_fn_curve_data: both boundary lines evaluated at N = 1, 10, ..., 10000. */
  function GenerateFnCurveData(): (d: FnCurveData)
    ensures d.nValues == [1, 10, 100, 1000, 10000]
    ensures |d.unacceptableF| == 5 && |d.acceptableF| == 5
    ensures forall k :: 0 <= k < 5 ==>
              && d.nValues[k] as real == Pow10(k)
              && d.unacceptableF[k] == Pow10(UnacceptableA + UnacceptableB * k)
              && d.acceptableF[k] == Pow10(AcceptableC + AcceptableD * k)
  {
    FnCurveNArePowersOfTen();
    FnCurveData(
      FnCurveN,
      seq(5, k requires 0 <= k < 5 => UnacceptableBoundary(FnCurveN[k] as real)),
      seq(5, k requires 0 <= k < 5 => AcceptableBoundary(FnCurveN[k] as real)))
  }

  lemma FnCurveNArePowersOfTen()
    ensures forall k :: 0 <= k < 5 ==> 0.0 < FnCurveN[k] as real == Pow10(k)
    ensures forall k :: 0 <= k < 5 ==>
              && UnacceptableBoundary(FnCurveN[k] as real) == Pow10(UnacceptableA + UnacceptableB * k)
              && AcceptableBoundary(FnCurveN[k] as real) == Pow10(AcceptableC + AcceptableD * k)
  {
    assert Pow10(0) == 1.0;
    assert Pow10(1) == 10.0;
    assert Pow10(2) == 100.0;
    assert Pow10(3) == 1000.0;
    assert Pow10(4) == 10000.0;
    forall k | 0 <= k < 5
      ensures UnacceptableBoundary(FnCurveN[k] as real) == Pow10(UnacceptableA + UnacceptableB * k)
      ensures AcceptableBoundary(FnCurveN[k] as real) == Pow10(AcceptableC + AcceptableD * k)
    {
      BoundariesAtPowerOfTen(k);
    }
  }

  /** At N = 1 the table holds 10^A and 10^C, and every unacceptable entry is a hundred times
      the acceptable one. */
  lemma FnCurveShape()
    ensures var d := GenerateFnCurveData();
            && d.unacceptableF[0] == Pow10(UnacceptableA) == 0.01
            && d.acceptableF[0] == Pow10(AcceptableC) == 0.0001
            && forall k :: 0 <= k < 5 ==> d.unacceptableF[k] == 100.0 * d.acceptableF[k]
  {
    var d := GenerateFnCurveData();
    assert Pow10(-2) == 0.01;
    assert Pow10(-4) == 0.0001;
    forall k | 0 <= k < 5 ensures d.unacceptableF[k] == 100.0 * d.acceptableF[k] {
      Pow10Add(2, -4 - k);
      assert Pow10(2) == 100.0;
    }
  }

  // ---------------------------------------------------------------- the full run

  /** What run_simulation returns on success. */
  datatype RunOutcome = RunOutcome(
    tunnelName: string,
    totalPcu: real,
    asetS: real,
    rsetS: ExtReal,
    safetyMarginS: ExtReal,
    isSafe: bool,
    accidentFrequencyPerYear: real,
    fatalitiesPerAccident: ExtReal,
    riskStatus: RiskStatus,
    improvementRequired: bool,
    simulationStatus: string)

  /** The chain ASET -> RSET -> N -> F -> classification for a tunnel and its analysis. */
  function QraOutcome(tunnel: TunnelConfiguration, har: HarEvacAnalysis, sqrt: real -> real): (o: RunOutcome)
    requires IsSqrtFn(sqrt) && 0.0 <= har.heatReleaseRate
    ensures 60.0 <= o.asetS <= 1800.0
    ensures o.isSafe <==> o.rsetS.Fin? && o.asetS - o.rsetS.r > 0.0
    ensures har.evacSpeedWalking <= 0.0 ==> o.rsetS == PosInf && o.safetyMarginS == NegInf && !o.isSafe
    ensures o.fatalitiesPerAccident.Ge(1.0)
    ensures (o.riskStatus, o.improvementRequired)
            == CompareRiskToCriteria(o.accidentFrequencyPerYear, o.fatalitiesPerAccident)
    ensures o.riskStatus == Error <==> o.accidentFrequencyPerYear <= 0.0
  {
    var aset := CalculateAset(Some(har), Some(tunnel), har.heatReleaseRate, har.fireGrowthRate, sqrt);
    var rset := CalculateRset(Some(har), Some(tunnel));
    var margin := SubExt(aset, rset);
    var n := CalculateFatalities(tunnel, aset, rset);
    var f := CalculateAccidentFrequency(Some(tunnel));
    var verdict := CompareRiskToCriteria(f, n);
    RunOutcome(tunnel.name, PcuSum(tunnel.vehicleClassifications), aset, rset, margin, margin.Gt(0.0),
               f, n, verdict.0, verdict.1, CompletedStatus)
  }

  /** A fresh default project (410 m, the seven vehicle types with zero volumes, the default
      analysis) is safe by its margin (ASET about 739 s against RSET 415 s) but classifies as
      "Error", because zero traffic gives F = 0. */
  lemma DefaultProjectScenario(id: int, sqrt: real -> real)
    requires IsSqrtFn(sqrt)
    ensures var o := QraOutcome(NewTunnelConfiguration(id).(vehicleClassifications := VehicleTypes()),
                                NewHarEvacAnalysis(id, id), sqrt);
            && o.rsetS == Fin(415.0) && o.isSafe
            && o.accidentFrequencyPerYear == 0.0
            && o.fatalitiesPerAccident == Fin(1.0)
            && o.riskStatus == Error && o.improvementRequired
  {
    var t := NewTunnelConfiguration(id).(vehicleClassifications := VehicleTypes());
    AsetDefaultScenario(t, sqrt);
    RsetDefaultScenario(id);
    var vs := VehicleTypes();
    assert DailyTraffic(vs) == 0.0 by {
      assert forall k :: 0 <= k <= 7 ==> DailyTraffic(vs[..k]) == 0.0 by {
        forall k | 0 <= k <= 7 ensures DailyTraffic(vs[..k]) == 0.0 {
          DailyTrafficPrefixZero(vs, k);
        }
      }
      assert vs[..7] == vs;
    }
    assert TotalOccupancy(vs) == 0.0 by {
      OccupancyPrefixZero(vs, 7);
      assert vs[..7] == vs;
    }
  }

  lemma {:induction false} DailyTrafficPrefixZero(vs: seq<VehicleClassification>, k: nat)
    requires k <= |vs|
    requires forall i :: 0 <= i < |vs| ==> vs[i].volumePlus == 0.0 && vs[i].volumeMinus == 0.0
    ensures DailyTraffic(vs[..k]) == 0.0
  {
    if k > 0 {
      DailyTrafficPrefixZero(vs, k - 1);
      assert vs[..k][..k - 1] == vs[..k - 1];
    }
  }

  lemma {:induction false} OccupancyPrefixZero(vs: seq<VehicleClassification>, k: nat)
    requires k <= |vs|
    requires forall i :: 0 <= i < |vs| ==> vs[i].volumePlus == 0.0 && vs[i].volumeMinus == 0.0
    ensures TotalOccupancy(vs[..k]) == 0.0
  {
    if k > 0 {
      OccupancyPrefixZero(vs, k - 1);
      assert vs[..k][..k - 1] == vs[..k - 1];
    }
  }

  /** The calculator over the records of one session.  The source reads tunnels and analyses
      by primary key (it looks the analysis up under the tunnel's id) and keeps one result per
      tunnel id, found or created by `run_simulation`. */
  class QraCalculator {
    var tunnels: map<int, TunnelConfiguration>
    var harEvacs: map<int, HarEvacAnalysis>
    var results: map<int, QraResult>
    const sqrt: real -> real

    ghost predicate Valid()
      reads this
    {
      && IsSqrtFn(sqrt)
      && forall id :: id in results ==> results[id].tunnelConfigId == id
    }

    constructor (sqrt: real -> real, tunnels: map<int, TunnelConfiguration>,
                 harEvacs: map<int, HarEvacAnalysis>, results: map<int, QraResult>)
      requires IsSqrtFn(sqrt)
      requires forall id :: id in results ==> results[id].tunnelConfigId == id
      ensures Valid()
      ensures this.sqrt == sqrt && this.tunnels == tunnels && this.harEvacs == harEvacs
      ensures this.results == results
    {
      this.sqrt := sqrt;
      this.tunnels := tunnels;
      this.harEvacs := harEvacs;
      this.results := results;
    }

    /** run_simulation: a missing tunnel or analysis returns the error and stores nothing;
        otherwise the result for the id is overwritten (or created) with the computed F, N,
        status and flag, and every other result stays as it was. */
    method RunSimulation(id: int) returns (out: Result<RunOutcome>)
      requires Valid()
      requires id in tunnels && id in harEvacs ==> 0.0 <= harEvacs[id].heatReleaseRate
      modifies this`results
      ensures Valid()
      ensures id !in tunnels || id !in harEvacs ==>
                out == Err(MissingConfiguration) && results == old(results)
      ensures id in tunnels && id in harEvacs ==>
                var o := QraOutcome(tunnels[id], harEvacs[id], sqrt);
                && out == Ok(o)
                && results.Keys == old(results).Keys + {id}
                && results[id] == QraResult(id, o.accidentFrequencyPerYear, o.fatalitiesPerAccident,
                                            o.riskStatus, o.improvementRequired)
                && forall k :: k in old(results) && k != id ==> results[k] == old(results)[k]
    {
      var tunnel := Get(tunnels, id);
      var harEvac := Get(harEvacs, id);
      if tunnel.None? || harEvac.None? {
        return Err(MissingConfiguration);
      }
      var hrrMw := harEvac.value.heatReleaseRate;
      var growthRateType := harEvac.value.fireGrowthRate;

      var aset := CalculateAset(harEvac, tunnel, hrrMw, growthRateType, sqrt);
      var rset := CalculateRset(harEvac, tunnel);
      var safetyMargin := SubExt(aset, rset);
      var fatalities := CalculateFatalities(tunnel.value, aset, rset);
      var frequency := CalculateAccidentFrequency(tunnel);
      var verdict := CompareRiskToCriteria(frequency, fatalities);

      var record := if id in results then results[id] else NewQraResult(id);
      record := record.(accidentFrequencyPerYear := frequency, fatalitiesPerAccident := fatalities,
                        riskStatus := verdict.0, improvementRequired := verdict.1);
      results := results[id := record];

      var totalPcu := CalculateTotalPcu(tunnel);
      out := Ok(RunOutcome(tunnel.value.name, totalPcu, aset, rset, safetyMargin, safetyMargin.Gt(0.0),
                           frequency, fatalities, verdict.0, verdict.1, CompletedStatus));
    }
  }
}

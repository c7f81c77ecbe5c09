/** The hazard-rate engine: validation of the market snapshot, the sequential
    bootstrap of a piecewise-constant hazard curve from CDS quotes, survival and
    default probabilities, forward hazard rates and the curve summary. */
module HazardRate {
  import opened Common
  import opened RateCurve
  import opened DataProvider

  const MinHazardRate: real := 0.000001
  const MaxHazardRate: real := 1.0
  const QuarterlyStep: real := 0.25

  // ---------------------------------------------------------------------------
  // Validation

  datatype Check = Pass | Fail(error: Error)

  predicate NonEmptyCds(s: Snapshot)
    requires HasRequiredKeys(s)
  {
    s.cdsCurve.value.Mapping? && |s.cdsCurve.value.dict.keys| > 0
  }

  predicate RecoveryInRange(b: BondFields) {
    b.recoveryRate.Some? && 0.0 <= b.recoveryRate.value <= 1.0
  }

  /** _validate_market_data: the first failing check decides the exception. */
  function ValidateMarketData(s: Snapshot): (r: Check)
    ensures r.Pass? <==> HasRequiredKeys(s) && NonEmptyCds(s) && RecoveryInRange(s.bond.value)
    ensures !HasRequiredKeys(s) ==> r == Fail(MissingMarketData)
    ensures HasRequiredKeys(s) && !NonEmptyCds(s) ==> r == Fail(InvalidCdsCurve)
    ensures HasRequiredKeys(s) && NonEmptyCds(s) && s.bond.value.recoveryRate.None? ==> r == Fail(MissingRecoveryRate)
    ensures HasRequiredKeys(s) && NonEmptyCds(s) && s.bond.value.recoveryRate.Some? && !RecoveryInRange(s.bond.value) ==>
      r == Fail(RecoveryOutOfRange)
  {
    if !HasRequiredKeys(s) then Fail(MissingMarketData)
    else if !NonEmptyCds(s) then Fail(InvalidCdsCurve)
    else if s.bond.value.recoveryRate.None? then Fail(MissingRecoveryRate)
    else if !(0.0 <= s.bond.value.recoveryRate.value <= 1.0) then Fail(RecoveryOutOfRange)
    else Pass
  }

  /** The provider's validate_data and the engine's check agree except on the
      CDS curve: the provider never looks at it, the engine needs a non-empty dict. */
  lemma ValidationsAgree(s: Snapshot)
    requires ValidateData(s)
    ensures ValidateMarketData(s).Pass? <==> NonEmptyCds(s)
  {
  }

  /** A snapshot the check accepts although the bootstrap then divides by
      1 - R = 0: the dummy bond with a recovery rate of exactly 1. */
  lemma RecoveryOneAccepted()
    ensures var s := Snapshot(Some(DummyBond.(recoveryRate := 1.0).Fields()), Some(Mapping(DummyCds)), Some(Mapping(DummyTreasury)));
      && ValidateMarketData(s).Pass?
      && s.bond.value.recoveryRate == Some(1.0)
      && ValidateMarketDataStrict(s) == Fail(RecoveryOutOfRange)
  {
  }

  /** The recovery check as the bootstrap needs it: R in [0, 1), since both the
      first tenor and the solver's starting point divide by 1 - R. */
  function ValidateMarketDataStrict(s: Snapshot): (r: Check)
    ensures r.Pass? <==> (HasRequiredKeys(s) && NonEmptyCds(s) && s.bond.value.recoveryRate.Some?
                          && 0.0 <= s.bond.value.recoveryRate.value < 1.0)
    ensures r.Fail? && ValidateMarketData(s).Fail? ==> r == ValidateMarketData(s)
  {
    match ValidateMarketData(s)
    case Fail(e) => Fail(e)
    case Pass => if s.bond.value.recoveryRate.value == 1.0 then Fail(RecoveryOutOfRange) else Pass
  }

  /** The strict check accepts exactly the market data that HazardRateEngine.Create
      turns into an engine: it passes the source's check and R is not 1. */
  lemma StrictValidationMatchesCreate(md: MarketData)
    ensures ValidateMarketDataStrict(md.View()).Pass? <==>
      ValidateMarketData(md.View()).Pass? && md.bond.recoveryRate != 1.0
  {
  }

  // ---------------------------------------------------------------------------
  // Cumulative hazard and survival

  /** survival_prob's loop from position i with prev_t = prev: the segment that
      contains t contributes up to t, earlier segments in full, and past the last
      tenor the last hazard rate extends flat. */
  function Accumulate(v: map<real, real>, ts: seq<real>, i: nat, prev: real, t: real): real
    requires i < |ts|
    requires Covers(ts, v)
    decreases |ts| - i
  {
    var lam := v[ts[i]];
    if t <= ts[i] then lam * (t - prev)
    else if i + 1 == |ts| then lam * (ts[i] - prev) + lam * (t - ts[i])
    else lam * (ts[i] - prev) + Accumulate(v, ts, i + 1, ts[i], t)
  }

  /** H(t) for t > 0, over the hazard rates sorted by tenor. */
  function CumulativeHazard(hr: Dict, t: real): real
    requires IsCurve(hr)
  {
    SortedKeysCovered(hr);
    Accumulate(hr.values, Sorted(hr.keys), 0, 0.0, t)
  }

  /** S(t): 1 up to time 0, exp(-H(t)) after. */
  function Survival(exp: real -> real, hr: Dict, t: real): real
    requires IsCurve(hr)
  {
    if t <= 0.0 then 1.0 else exp(-CumulativeHazard(hr, t))
  }

  /** survival_prob's loop over the sorted tenors, with the accumulators
      cumulative_hazard and prev_t, and the flat extrapolation after it. */
  method AccumulateHazard(v: map<real, real>, ts: seq<real>, t: real) returns (cumulativeHazard: real)
    requires |ts| > 0 && Covers(ts, v)
    ensures cumulativeHazard == Accumulate(v, ts, 0, 0.0, t)
  {
    ghost var h := Accumulate(v, ts, 0, 0.0, t);
    cumulativeHazard := 0.0;
    var prev := 0.0;
    var i := 0;
    while i < |ts|
      invariant 0 <= i <= |ts|
      invariant i < |ts| ==> cumulativeHazard + Accumulate(v, ts, i, prev, t) == h
      invariant i == |ts| ==> prev == ts[|ts| - 1] && cumulativeHazard + v[prev] * (t - prev) == h
    {
      var tenor := ts[i];
      if t <= tenor {
        cumulativeHazard := cumulativeHazard + v[tenor] * (t - prev);
        return;
      }
      cumulativeHazard := cumulativeHazard + v[tenor] * (tenor - prev);
      prev := tenor;
      i := i + 1;
    }
    var lastLambda := v[ts[|ts| - 1]];
    cumulativeHazard := cumulativeHazard + lastLambda * (t - prev);
  }

  // An independent statement of H: the sum over segments (T_{j-1}, T_j] of the
  // segment's rate times the part of it below t, plus the flat tail.

  /** Length of (lo, hi] that lies below t, or hi - lo once t is past it. */
  function Overlap(lo: real, hi: real, t: real): real {
    if t <= lo then 0.0 else if t <= hi then t - lo else hi - lo
  }

  function SegmentStart(ts: seq<real>, j: nat): real
    requires j < |ts|
  {
    if j == 0 then 0.0 else ts[j - 1]
  }

  function SegmentSum(v: map<real, real>, ts: seq<real>, i: nat, t: real): real
    requires i <= |ts|
    requires Covers(ts, v)
    decreases |ts| - i
  {
    if i == |ts| then 0.0
    else
      Contribution(v, ts, i, t) + SegmentSum(v, ts, i + 1, t)
  }

  /** Segment i's rate times the part of the segment below t. */
  function Contribution(v: map<real, real>, ts: seq<real>, i: nat, t: real): real
    requires i < |ts| && Covers(ts, v)
  {
    v[ts[i]] * Overlap(SegmentStart(ts, i), ts[i], t)
  }

  function Tail(v: map<real, real>, ts: seq<real>, t: real): real
    requires |ts| > 0
    requires Covers(ts, v)
  {
    var last := ts[|ts| - 1];
    if t <= last then 0.0 else v[last] * (t - last)
  }

  /** Segments at or beyond t contribute nothing. */
  lemma {:induction false} SegmentSumBeyond(v: map<real, real>, ts: seq<real>, i: nat, t: real)
    requires StrictlyIncreasing(ts)
    requires 0 < i <= |ts| && t <= ts[i - 1]
    requires Covers(ts, v)
    ensures SegmentSum(v, ts, i, t) == 0.0
    decreases |ts| - i
  {
    if i < |ts| {
      SegmentSumBeyond(v, ts, i + 1, t);
    }
  }

  /** The loop computes the segment sum: survival_prob's H is the sum of
      rate x (time spent in the segment before t), with the last rate past the end. */
  lemma {:induction false} AccumulateIsSegmentSum(v: map<real, real>, ts: seq<real>, i: nat, t: real)
    requires StrictlyIncreasing(ts)
    requires i < |ts|
    requires Covers(ts, v)
    requires t > SegmentStart(ts, i)
    ensures Accumulate(v, ts, i, SegmentStart(ts, i), t) == SegmentSum(v, ts, i, t) + Tail(v, ts, t)
    decreases |ts| - i
  {
    if t <= ts[i] {
      SegmentSumBeyond(v, ts, i + 1, t);
    } else if i + 1 == |ts| {
    } else {
      AccumulateIsSegmentSum(v, ts, i + 1, t);
    }
  }

  lemma MulMonotone(a: real, x: real, y: real)
    requires a >= 0.0 && x <= y
    ensures a * x <= a * y
    ensures x == 0.0 ==> 0.0 <= a * y
  {
  }

  lemma OverlapMonotone(lo: real, hi: real, t1: real, t2: real)
    requires lo <= hi && t1 <= t2
    ensures 0.0 <= Overlap(lo, hi, t1) <= Overlap(lo, hi, t2)
  {
  }

  ghost predicate NonNegativeRates(hr: Dict) {
    forall k :: k in hr.values ==> hr.values[k] >= 0.0
  }

  ghost predicate PositiveTenors(keys: seq<real>) {
    forall k :: k in keys ==> k > 0.0
  }

  lemma {:induction false} SegmentSumMonotone(v: map<real, real>, ts: seq<real>, i: nat, t1: real, t2: real)
    requires StrictlyIncreasing(ts) && (|ts| > 0 ==> ts[0] >= 0.0)
    requires i <= |ts| && t1 <= t2
    requires Covers(ts, v) && forall j :: 0 <= j < |ts| ==> v[ts[j]] >= 0.0
    ensures 0.0 <= SegmentSum(v, ts, i, t1) <= SegmentSum(v, ts, i, t2)
    decreases |ts| - i
  {
    if i < |ts| {
      assert SegmentStart(ts, i) <= ts[i] by {
        if i > 0 { assert ts[i - 1] < ts[i]; }
      }
      SegmentTermMonotone(v, ts, i, t1, t2);
      SegmentSumMonotone(v, ts, i + 1, t1, t2);
    }
  }

  /** One segment's contribution grows with t and is never negative. */
  lemma SegmentTermMonotone(v: map<real, real>, ts: seq<real>, i: nat, t1: real, t2: real)
    requires i < |ts| && Covers(ts, v) && v[ts[i]] >= 0.0
    requires SegmentStart(ts, i) <= ts[i] && t1 <= t2
    ensures 0.0 <= Contribution(v, ts, i, t1) <= Contribution(v, ts, i, t2)
  {
    var lam, lo := v[ts[i]], SegmentStart(ts, i);
    OverlapMonotone(lo, ts[i], t1, t2);
    MulMonotone(lam, 0.0, Overlap(lo, ts[i], t1));
    MulMonotone(lam, Overlap(lo, ts[i], t1), Overlap(lo, ts[i], t2));
  }

  /** With non-negative rates and positive tenors, H is non-negative and
      non-decreasing in t. */
  lemma HazardMonotone(hr: Dict, t1: real, t2: real)
    requires IsCurve(hr) && NonNegativeRates(hr) && PositiveTenors(hr.keys)
    requires 0.0 < t1 <= t2
    ensures 0.0 <= CumulativeHazard(hr, t1) <= CumulativeHazard(hr, t2)
  {
    var ts := Sorted(hr.keys);
    var v := hr.values;
    SortedKeysCovered(hr);
    assert ts[0] in ts;
    assert forall j :: 0 <= j < |ts| ==> v[ts[j]] >= 0.0 by {
      forall j | 0 <= j < |ts| ensures v[ts[j]] >= 0.0 {
        assert ts[j] in v;
      }
    }
    AccumulateIsSegmentSum(v, ts, 0, t1);
    AccumulateIsSegmentSum(v, ts, 0, t2);
    SegmentSumMonotone(v, ts, 0, t1, t2);
    TailMonotone(v, ts, t1, t2);
  }

  lemma TailMonotone(v: map<real, real>, ts: seq<real>, t1: real, t2: real)
    requires |ts| > 0 && Covers(ts, v) && v[ts[|ts| - 1]] >= 0.0
    requires t1 <= t2
    ensures 0.0 <= Tail(v, ts, t1) <= Tail(v, ts, t2)
  {
    var last := ts[|ts| - 1];
    if t2 > last {
      MulMonotone(v[last], 0.0, t2 - last);
      if t1 > last {
        MulMonotone(v[last], t1 - last, t2 - last);
      }
    }
  }

  /** survival_prob is 1 at and before time 0 and in (0, 1] everywhere. */
  lemma SurvivalBounds(exp: real -> real, hr: Dict, t: real)
    requires IsExp(exp) && IsCurve(hr) && NonNegativeRates(hr) && PositiveTenors(hr.keys)
    ensures 0.0 < Survival(exp, hr, t) <= 1.0
    ensures t <= 0.0 ==> Survival(exp, hr, t) == 1.0
  {
    if t > 0.0 {
      HazardMonotone(hr, t, t);
      ExpAtMostOne(exp, -CumulativeHazard(hr, t));
    }
  }

  /** Survival never increases with the horizon. */
  lemma SurvivalNonIncreasing(exp: real -> real, hr: Dict, t1: real, t2: real)
    requires IsExp(exp) && IsCurve(hr) && NonNegativeRates(hr) && PositiveTenors(hr.keys)
    requires t1 <= t2
    ensures Survival(exp, hr, t2) <= Survival(exp, hr, t1)
  {
    SurvivalBounds(exp, hr, t2);
    if t1 > 0.0 {
      HazardMonotone(hr, t1, t2);
      ExpMonotone(exp, -CumulativeHazard(hr, t2), -CumulativeHazard(hr, t1));
    }
  }

  lemma SurvivalPositive(exp: real -> real, hr: Dict, t: real)
    requires IsExp(exp) && IsCurve(hr)
    ensures Survival(exp, hr, t) > 0.0
  {
  }

  /** default_prob is 1 - survival_prob: 0 up to time 0, in [0, 1) and
      non-decreasing in t. */
  lemma DefaultProbBounds(exp: real -> real, hr: Dict, t1: real, t2: real)
    requires IsExp(exp) && IsCurve(hr) && NonNegativeRates(hr) && PositiveTenors(hr.keys)
    requires t1 <= t2
    ensures 0.0 <= 1.0 - Survival(exp, hr, t1) <= 1.0 - Survival(exp, hr, t2) < 1.0
    ensures t1 <= 0.0 ==> 1.0 - Survival(exp, hr, t1) == 0.0
  {
    SurvivalBounds(exp, hr, t1);
    SurvivalBounds(exp, hr, t2);
    SurvivalNonIncreasing(exp, hr, t1, t2);
  }

  // ---------------------------------------------------------------------------
  // Forward hazard rate

  /** -ln(S(t2) / S(t1)) / (t2 - t1): the constant hazard between two survival levels. */
  function ForwardRate(ln: real -> real, s1: real, s2: real, dt: real): real
    requires s1 != 0.0 && dt != 0.0
  {
    -ln(s2 / s1) / dt
  }

  /** get_forward_hazard_rate over the curve `hr`. */
  function ForwardHazard(exp: real -> real, ln: real -> real, hr: Dict, t1: real, t2: real): (r: Result<real>)
    requires IsExp(exp) && IsCurve(hr)
    ensures r.Err? <==> t2 <= t1
    ensures r.Err? ==> r.error == ForwardTimesOutOfOrder
  {
    if t2 <= t1 then Err(ForwardTimesOutOfOrder)
    else
      var s1 := Survival(exp, hr, t1);
      var s2 := Survival(exp, hr, t2);
      if s2 <= 0.0 then Ok(MaxHazardRate)
      else
        SurvivalPositive(exp, hr, t1);
        Ok(ForwardRate(ln, s1, s2, t2 - t1))
  }

  lemma ForwardCarries(exp: real -> real, ln: real -> real, s1: real, s2: real, t1: real, t2: real, f: real)
    requires IsLogOf(ln, exp)
    requires s1 > 0.0 && s2 > 0.0 && t1 < t2
    requires f == ForwardRate(ln, s1, s2, t2 - t1)
    ensures s1 * exp(-f * (t2 - t1)) == s2
  {
    var q := s2 / s1;
    assert -f * (t2 - t1) == ln(q);
    assert exp(ln(q)) == q;
    assert s1 * q == s2;
  }

  lemma ForwardNonNegative(exp: real -> real, ln: real -> real, s1: real, s2: real, t1: real, t2: real)
    requires IsExp(exp) && IsLogOf(ln, exp)
    requires 0.0 < s2 <= s1 && t1 < t2
    ensures ForwardRate(ln, s1, s2, t2 - t1) >= 0.0
  {
    RatioAtMostOne(s2, s1);
    if ln(s2 / s1) > 0.0 {
      assert false;
    }
  }

  /** A successful forward rate is -ln(S(t2) / S(t1)) / (t2 - t1) with both
      survival levels positive. */
  lemma ForwardHazardValue(exp: real -> real, ln: real -> real, hr: Dict, t1: real, t2: real, f: real)
    requires IsExp(exp) && IsCurve(hr)
    requires ForwardHazard(exp, ln, hr, t1, t2) == Ok(f)
    ensures t1 < t2 && Survival(exp, hr, t1) > 0.0 && Survival(exp, hr, t2) > 0.0
    ensures f == ForwardRate(ln, Survival(exp, hr, t1), Survival(exp, hr, t2), t2 - t1)
  {
    SurvivalPositive(exp, hr, t1);
    SurvivalPositive(exp, hr, t2);
  }

  /** A forward rate f from t1 to t2 is the constant hazard that carries S(t1)
      to S(t2): S(t1) * exp(-f * (t2 - t1)) == S(t2). */
  lemma ForwardHazardMeaning(exp: real -> real, ln: real -> real, hr: Dict, t1: real, t2: real, f: real)
    requires IsExp(exp) && IsLogOf(ln, exp) && IsCurve(hr)
    requires ForwardHazard(exp, ln, hr, t1, t2) == Ok(f)
    ensures Survival(exp, hr, t1) * exp(-f * (t2 - t1)) == Survival(exp, hr, t2)
  {
    ForwardHazardValue(exp, ln, hr, t1, t2, f);
    ForwardCarries(exp, ln, Survival(exp, hr, t1), Survival(exp, hr, t2), t1, t2, f);
  }

  /** On a curve with non-negative rates and positive tenors every forward rate
      is non-negative. */
  lemma ForwardHazardNonNegative(exp: real -> real, ln: real -> real, hr: Dict, t1: real, t2: real, f: real)
    requires IsExp(exp) && IsLogOf(ln, exp) && IsCurve(hr)
    requires NonNegativeRates(hr) && PositiveTenors(hr.keys)
    requires ForwardHazard(exp, ln, hr, t1, t2) == Ok(f)
    ensures f >= 0.0
  {
    ForwardHazardValue(exp, ln, hr, t1, t2, f);
    SurvivalNonIncreasing(exp, hr, t1, t2);
    ForwardNonNegative(exp, ln, Survival(exp, hr, t1), Survival(exp, hr, t2), t1, t2);
  }

  lemma RatioAtMostOne(a: real, b: real)
    requires 0.0 < a <= b
    ensures 0.0 < a / b <= 1.0
  {
  }

  // ---------------------------------------------------------------------------
  // Bootstrap specification

  /** fsolve(objective, initial_guess, maxfev): a root estimate, or None when it
      raises. The objective is passed as the closure the source builds. */
  type Solver = (Objective, real, int) -> Option<real>

  /** The closure `objective` of _solve_for_hazard_rate: the engine state it
      reads (exp, the discount factors exp(-r(t) t), the recovery rate, the
      integration step and the hazard curve bootstrapped so far) and the tenor
      and spread it prices. */
  datatype Objective = Objective(
    exp: real -> real,
    discount: real -> real,
    recovery: real,
    step: real,
    prefix: Dict,
    tenor: real,
    spread: real)
  {
    ghost predicate Valid() {
      step > 0.0 && prefix.Valid()
    }

    /** The trial curve: the rate under test written at the tenor. */
    function Trial(lam: real): (trial: Dict)
      requires Valid()
      ensures IsCurve(trial)
      ensures tenor in trial.values && trial.values[tenor] == lam
      ensures forall k :: k in prefix.values && k != tenor ==> k in trial.values && trial.values[k] == prefix.values[k]
      ensures forall k :: k in trial.values ==> k == tenor || k in prefix.values
    {
      Put(prefix, tenor, lam)
    }

    /** objective(lambda): the premium leg minus the protection leg under the trial curve. */
    function Apply(lam: real): real
      requires Valid()
    {
      var k := GridSize(tenor, step);
      PremiumLeg(this, Trial(lam), k) - ProtectionLeg(this, Trial(lam), k)
    }
  }

  /** What the bootstrap depends on besides the CDS quotes. The risk-free curve
      enters only through its discount factors exp(-r(t) t). */
  datatype Setup = Setup(
    exp: real -> real,
    fsolve: Solver,
    discount: real -> real,
    recovery: real,
    step: real,
    maxIterations: int)
  {
    /** The objective for pricing `tenor` at `spread` on top of `prefix`. */
    function ObjectiveFor(prefix: Dict, tenor: real, spread: real): (o: Objective)
      ensures o.prefix == prefix && o.tenor == tenor && o.spread == spread
      ensures o.exp == exp && o.discount == discount && o.recovery == recovery && o.step == step
    {
      Objective(exp, discount, recovery, step, prefix, tenor, spread)
    }
  }

  /** The credit triangle spread / (1 - R). */
  function Triangle(spread: real, recovery: real): real
    requires recovery != 1.0
  {
    spread / (1.0 - recovery)
  }

  function Ceil(x: real): int {
    -((-x).Floor)
  }

  /** Number of points of np.arange(step, tenor + step, step): ceil(tenor / step), or none. */
  function GridSize(tenor: real, step: real): nat
    requires step > 0.0
  {
    if tenor <= 0.0 then 0 else Ceil(tenor / step)
  }

  /** The premium leg over grid points step, 2 step, ..., k step. */
  function PremiumLeg(o: Objective, trial: Dict, k: nat): real
    requires o.step > 0.0 && IsCurve(trial)
  {
    if k == 0 then 0.0
    else
      var t := k as real * o.step;
      PremiumLeg(o, trial, k - 1) + o.spread * o.step * Survival(o.exp, trial, t) * o.discount(t)
  }

  /** The protection leg over the same grid: (1 - R) times each step's default probability. */
  function ProtectionLeg(o: Objective, trial: Dict, k: nat): real
    requires o.step > 0.0 && IsCurve(trial)
  {
    if k == 0 then 0.0
    else
      var t := k as real * o.step;
      ProtectionLeg(o, trial, k - 1)
        + (1.0 - o.recovery) * (Survival(o.exp, trial, t - o.step) - Survival(o.exp, trial, t)) * o.discount(t)
  }

  /** _solve_for_hazard_rate: the solver's answer clipped into [MIN, MAX], or the
      unclipped credit triangle when the solver raises. */
  function SolvedRate(p: Setup, prefix: Dict, tenor: real, spread: real, guess: real): (r: real)
    requires p.recovery != 1.0
    ensures (MinHazardRate <= r <= MaxHazardRate) || r == Triangle(spread, p.recovery)
    ensures p.fsolve(p.ObjectiveFor(prefix, tenor, spread), guess, p.maxIterations).Some? ==>
      r == Clip(p.fsolve(p.ObjectiveFor(prefix, tenor, spread), guess, p.maxIterations).value, MinHazardRate, MaxHazardRate)
    ensures p.fsolve(p.ObjectiveFor(prefix, tenor, spread), guess, p.maxIterations).None? ==>
      r == Triangle(spread, p.recovery)
  {
    match p.fsolve(p.ObjectiveFor(prefix, tenor, spread), guess, p.maxIterations)
    case Some(lam) => Clip(lam, MinHazardRate, MaxHazardRate)
    case None => Triangle(spread, p.recovery)
  }

  /** The map obtained by setting ts[0], ts[1], ... to rs[0], rs[1], ... in turn. */
  function MapOf(ts: seq<real>, rs: seq<real>): map<real, real>
    requires |rs| == |ts|
  {
    if ts == [] then map[] else MapOf(ts[..|ts| - 1], rs[..|rs| - 1])[ts[|ts| - 1] := rs[|rs| - 1]]
  }

  /** The dict built from an empty one by `d[ts[i]] = rs[i]` for i = 0, 1, ...,
      when the tenors are distinct: each is a new key, appended in that order. */
  function Curve(ts: seq<real>, rs: seq<real>): Dict
    requires |rs| == |ts|
  {
    Dict(ts, MapOf(ts, rs))
  }

  lemma {:induction false} MapOfDomain(ts: seq<real>, rs: seq<real>)
    requires |rs| == |ts|
    ensures forall k :: k in MapOf(ts, rs) <==> k in ts
  {
    if ts != [] {
      var n := |ts|;
      MapOfDomain(ts[..n - 1], rs[..n - 1]);
      assert ts == ts[..n - 1] + [ts[n - 1]];
    }
  }

  /** With distinct tenors every tenor maps to its own rate. */
  lemma {:induction false} MapOfAt(ts: seq<real>, rs: seq<real>, j: nat)
    requires StrictlyIncreasing(ts) && |rs| == |ts| && j < |ts|
    ensures ts[j] in MapOf(ts, rs) && MapOf(ts, rs)[ts[j]] == rs[j]
  {
    var n := |ts|;
    if j < n - 1 {
      MapOfAt(ts[..n - 1], rs[..n - 1], j);
    }
  }

  lemma {:induction false} MapOfBelow(ts: seq<real>, rs: seq<real>, lo: real)
    requires |rs| == |ts|
    requires forall i :: 0 <= i < |rs| ==> rs[i] >= lo
    ensures forall k :: k in MapOf(ts, rs) ==> MapOf(ts, rs)[k] >= lo
  {
    if ts != [] {
      MapOfBelow(ts[..|ts| - 1], rs[..|rs| - 1], lo);
    }
  }

  lemma IncreasingPrefix(ts: seq<real>, i: nat)
    requires StrictlyIncreasing(ts) && i <= |ts|
    ensures StrictlyIncreasing(ts[..i])
    ensures i < |ts| ==> ts[i] !in ts[..i]
  {
  }

  /** A curve over distinct tenors is a well-formed dict. */
  lemma CurveValid(ts: seq<real>, rs: seq<real>)
    requires StrictlyIncreasing(ts) && |rs| == |ts|
    ensures Curve(ts, rs).Valid()
  {
    MapOfDomain(ts, rs);
  }

  /** Setting a new tenor appends it to the curve. */
  lemma CurveAppend(ts: seq<real>, rs: seq<real>, t: real, r: real)
    requires StrictlyIncreasing(ts) && |rs| == |ts| && t !in ts
    ensures Curve(ts, rs).Valid() && t !in Curve(ts, rs).values
    ensures Put(Curve(ts, rs), t, r) == Curve(ts + [t], rs + [r])
  {
    CurveValid(ts, rs);
    MapOfDomain(ts, rs);
    assert (ts + [t])[..|ts|] == ts;
    assert (rs + [r])[..|rs|] == rs;
  }

  /** The rate step i of the bootstrap sets at tenor ts[i], whose CDS spread is
      spreads[i], given the rates of the nodes before it: the credit triangle for
      the first tenor, the solver's answer on the curve so far, started from the
      previous node, for the others. */
  function NodeRate(p: Setup, ts: seq<real>, spreads: seq<real>, i: nat): real
    requires p.recovery != 1.0
    requires |spreads| == |ts| && i < |ts|
    decreases i + 1, 0
  {
    var prev := Rates(p, ts, spreads, i);
    if i == 0 then Triangle(spreads[0], p.recovery)
    else SolvedRate(p, Curve(ts[..i], prev), ts[i], spreads[i], prev[i - 1])
  }

  /** The rates of the first n bootstrapped nodes, in tenor order. */
  function Rates(p: Setup, ts: seq<real>, spreads: seq<real>, n: nat): (rs: seq<real>)
    requires n > 0 ==> p.recovery != 1.0
    requires |spreads| == |ts| && n <= |ts|
    ensures |rs| == n
    decreases n, 1
  {
    if n == 0 then [] else Rates(p, ts, spreads, n - 1) + [NodeRate(p, ts, spreads, n - 1)]
  }

  lemma RatesStep(p: Setup, ts: seq<real>, spreads: seq<real>, n: nat)
    requires p.recovery != 1.0
    requires |spreads| == |ts| && 0 < n <= |ts|
    ensures Rates(p, ts, spreads, n)[..n - 1] == Rates(p, ts, spreads, n - 1)
    ensures Rates(p, ts, spreads, n)[n - 1] == NodeRate(p, ts, spreads, n - 1)
  {
  }

  lemma PrefixOfPrefix(a: seq<real>, b: seq<real>, m: nat)
    requires m <= |b| <= |a| && a[..|b|] == b
    ensures a[..m] == b[..m]
  {
    assert a[..m] == a[..|b|][..m];
  }

  /** Later steps of the bootstrap never revise an earlier node. */
  lemma {:induction false} RatesPrefix(p: Setup, ts: seq<real>, spreads: seq<real>, m: nat, n: nat)
    requires p.recovery != 1.0
    requires |spreads| == |ts| && m <= n <= |ts|
    ensures Rates(p, ts, spreads, n)[..m] == Rates(p, ts, spreads, m)
    decreases n
  {
    if m < n {
      RatesPrefix(p, ts, spreads, m, n - 1);
      RatesStep(p, ts, spreads, n);
      PrefixOfPrefix(Rates(p, ts, spreads, n), Rates(p, ts, spreads, n - 1), m);
    }
  }

  /** Node j of the finished bootstrap holds what step j computed, and the nodes
      before it are those step j saw. */
  lemma RatesFinal(p: Setup, ts: seq<real>, spreads: seq<real>, j: nat)
    requires p.recovery != 1.0
    requires |spreads| == |ts| && j < |ts|
    ensures Rates(p, ts, spreads, |ts|)[j] == NodeRate(p, ts, spreads, j)
    ensures j > 0 ==> Rates(p, ts, spreads, j)[j - 1] == Rates(p, ts, spreads, |ts|)[j - 1]
  {
    var rs := Rates(p, ts, spreads, |ts|);
    RatesPrefix(p, ts, spreads, j + 1, |ts|);
    RatesStep(p, ts, spreads, j + 1);
    assert rs[j] == rs[..j + 1][j];
    if j > 0 {
      RatesPrefix(p, ts, spreads, j, |ts|);
      assert rs[j - 1] == rs[..j][j - 1];
    }
  }

  /** One loop step of _bootstrap on the curve level: before step i the curve
      holds the first i tenors with rates rs, the next tenor is not yet a key,
      the previous tenor holds the last rate, and setting the next tenor appends
      it to the curve. */
  lemma CurveStep(ts: seq<real>, rs: seq<real>, i: nat, r: real)
    requires StrictlyIncreasing(ts) && i < |ts| && |rs| == i
    ensures Curve(ts[..i], rs).Valid() && ts[i] !in Curve(ts[..i], rs).values
    ensures i > 0 ==> ts[i - 1] in Curve(ts[..i], rs).values && Curve(ts[..i], rs).values[ts[i - 1]] == rs[i - 1]
    ensures Put(Curve(ts[..i], rs), ts[i], r) == Curve(ts[..i + 1], rs + [r])
  {
    IncreasingPrefix(ts, i);
    CurveAppend(ts[..i], rs, ts[i], r);
    assert ts[..i] + [ts[i]] == ts[..i + 1];
    if i > 0 {
      MapOfAt(ts[..i], rs, i - 1);
    }
  }

  /** A spread quoted in basis points as a decimal. */
  function FromBps(bps: real): real {
    bps / 10000.0
  }

  /** The CDS spreads as decimals, in increasing tenor order. */
  function Spreads(quotes: Dict): (spreads: seq<real>)
    requires quotes.Valid()
    ensures |spreads| == |quotes.keys|
    ensures forall i :: 0 <= i < |spreads| ==>
      spreads[i] == FromBps(quotes.values[Sorted(quotes.keys)[i]])
  {
    var ts := Sorted(quotes.keys);
    SortedKeysCovered(quotes);
    seq(|ts|, i requires 0 <= i < |ts| => FromBps(quotes.values[ts[i]]))
  }

  /** The hazard curve after the first n steps of the bootstrap over `quotes`. */
  function Calibrate(p: Setup, quotes: Dict, n: nat): Dict
    requires quotes.Valid()
    requires n <= |quotes.keys|
    requires n > 0 ==> p.recovery != 1.0
  {
    var ts := Sorted(quotes.keys);
    Curve(ts[..n], Rates(p, ts, Spreads(quotes), n))
  }

  /** The finished bootstrap over increasing tenors `ts`: node 0 holds the
      credit triangle, every later node the solver's answer on the curve of the
      nodes before it, started from the previous node's final rate. */
  lemma {:induction false} FinalNodes(p: Setup, ts: seq<real>, spreads: seq<real>, j: nat)
    requires p.recovery != 1.0
    requires StrictlyIncreasing(ts) && |spreads| == |ts| && j < |ts|
    ensures ts[j] in MapOf(ts, Rates(p, ts, spreads, |ts|))
    ensures j == 0 ==> MapOf(ts, Rates(p, ts, spreads, |ts|))[ts[0]] == Triangle(spreads[0], p.recovery)
    ensures j > 0 ==> ts[j - 1] in MapOf(ts, Rates(p, ts, spreads, |ts|))
    ensures j > 0 ==>
      MapOf(ts, Rates(p, ts, spreads, |ts|))[ts[j]]
        == SolvedRate(p, Curve(ts[..j], Rates(p, ts, spreads, j)), ts[j], spreads[j],
                      MapOf(ts, Rates(p, ts, spreads, |ts|))[ts[j - 1]])
  {
    var rs := Rates(p, ts, spreads, |ts|);
    MapOfAt(ts, rs, j);
    RatesFinal(p, ts, spreads, j);
    if j > 0 {
      MapOfAt(ts, rs, j - 1);
    }
  }

  /** The bootstrapped curve has exactly the CDS tenors as keys. */
  lemma BootstrapKeys(p: Setup, quotes: Dict)
    requires quotes.Valid() && p.recovery != 1.0
    ensures forall k :: k in Calibrate(p, quotes, |quotes.keys|).values <==> k in quotes.values
  {
    var ts := Sorted(quotes.keys);
    var n := |quotes.keys|;
    assert ts[..n] == ts;
    MapOfDomain(ts, Rates(p, ts, Spreads(quotes), n));
  }

  /** The smallest tenor gets the exact credit triangle (bps / 10000) / (1 - R). */
  lemma BootstrapFirst(p: Setup, quotes: Dict)
    requires quotes.Valid() && p.recovery != 1.0
    requires |quotes.keys| > 0
    ensures Sorted(quotes.keys)[0] in quotes.values
    ensures Sorted(quotes.keys)[0] in Calibrate(p, quotes, |quotes.keys|).values
    ensures Calibrate(p, quotes, |quotes.keys|).values[Sorted(quotes.keys)[0]]
      == Triangle(FromBps(quotes.values[Sorted(quotes.keys)[0]]), p.recovery)
  {
    var ts := Sorted(quotes.keys);
    var spreads := Spreads(quotes);
    var n := |quotes.keys|;
    assert ts[..n] == ts;
    FinalNodes(p, ts, spreads, 0);
    assert ts[0] in quotes.keys;
  }

  /** Every later tenor gets the solver's clipped answer on the curve after the
      earlier steps, started from the previous node's rate, or the triangle when
      the solver fails. */
  lemma BootstrapLater(p: Setup, quotes: Dict, j: nat)
    requires quotes.Valid() && p.recovery != 1.0
    requires 0 < j < |quotes.keys|
    ensures Sorted(quotes.keys)[j] in quotes.values && Sorted(quotes.keys)[j - 1] in quotes.values
    ensures Sorted(quotes.keys)[j] in Calibrate(p, quotes, |quotes.keys|).values
    ensures Sorted(quotes.keys)[j - 1] in Calibrate(p, quotes, |quotes.keys|).values
    ensures Calibrate(p, quotes, |quotes.keys|).values[Sorted(quotes.keys)[j]]
      == SolvedRate(p, Calibrate(p, quotes, j), Sorted(quotes.keys)[j],
                    FromBps(quotes.values[Sorted(quotes.keys)[j]]),
                    Calibrate(p, quotes, |quotes.keys|).values[Sorted(quotes.keys)[j - 1]])
  {
    var ts := Sorted(quotes.keys);
    var spreads := Spreads(quotes);
    var n := |quotes.keys|;
    assert ts[..n] == ts;
    FinalNodes(p, ts, spreads, j);
    assert ts[j] in quotes.keys && ts[j - 1] in quotes.keys;
  }

  /** With non-negative quotes and recovery in [0, 1) every bootstrapped rate is
      non-negative. */
  lemma {:induction false} RatesNonNegative(p: Setup, ts: seq<real>, spreads: seq<real>, n: nat)
    requires 0.0 <= p.recovery < 1.0
    requires |spreads| == |ts| && n <= |ts|
    requires forall i :: 0 <= i < |spreads| ==> spreads[i] >= 0.0
    ensures forall i :: 0 <= i < n ==> Rates(p, ts, spreads, n)[i] >= 0.0
  {
    if n > 0 {
      RatesNonNegative(p, ts, spreads, n - 1);
      RatesStep(p, ts, spreads, n);
      TriangleNonNegative(spreads[n - 1], p.recovery);
      assert NodeRate(p, ts, spreads, n - 1) >= 0.0;
    }
  }

  lemma TriangleNonNegative(spread: real, recovery: real)
    requires spread >= 0.0 && recovery < 1.0
    ensures Triangle(spread, recovery) >= 0.0
  {
    var q := spread / (1.0 - recovery);
    assert q * (1.0 - recovery) == spread;
    if q < 0.0 {
      MulNegative(q, 1.0 - recovery);
    }
  }

  lemma MulNegative(a: real, b: real)
    requires a < 0.0 < b
    ensures a * b < 0.0
  {
  }

  /** With non-negative quotes and recovery in [0, 1) every bootstrapped rate is
      non-negative, so the engine's survival curve is a proper one. */
  lemma CalibrateNonNegative(p: Setup, quotes: Dict, n: nat)
    requires quotes.Valid() && 0.0 <= p.recovery < 1.0
    requires forall k :: k in quotes.values ==> quotes.values[k] >= 0.0
    requires n <= |quotes.keys|
    ensures NonNegativeRates(Calibrate(p, quotes, n))
  {
    var ts := Sorted(quotes.keys);
    var spreads := Spreads(quotes);
    forall i | 0 <= i < |spreads| ensures spreads[i] >= 0.0 {
      assert ts[i] in quotes.keys;
    }
    RatesNonNegative(p, ts, spreads, n);
    MapOfBelow(ts[..n], Rates(p, ts, spreads, n), 0.0);
  }

  // ---------------------------------------------------------------------------
  // Summary statistics

  function Max(s: seq<real>): (m: real)
    requires |s| > 0
    ensures m in s && forall i :: 0 <= i < |s| ==> s[i] <= m
  {
    if |s| == 1 then s[0]
    else
      var m := Max(s[..|s| - 1]);
      if s[|s| - 1] > m then s[|s| - 1] else m
  }

  function Min(s: seq<real>): (m: real)
    requires |s| > 0
    ensures m in s && forall i :: 0 <= i < |s| ==> m <= s[i]
  {
    if |s| == 1 then s[0]
    else
      var m := Min(s[..|s| - 1]);
      if s[|s| - 1] < m then s[|s| - 1] else m
  }

  function Mean(s: seq<real>): real
    requires |s| > 0
  {
    Sum(s) / |s| as real
  }

  lemma {:induction false} SumBounds(s: seq<real>, lo: real, hi: real)
    requires forall i :: 0 <= i < |s| ==> lo <= s[i] <= hi
    ensures |s| as real * lo <= Sum(s) <= |s| as real * hi
  {
    if s != [] {
      var init := s[..|s| - 1];
      assert forall i :: 0 <= i < |init| ==> init[i] == s[i];
      SumBounds(init, lo, hi);
      assert Sum(s) == Sum(init) + s[|s| - 1];
      assert |s| as real * lo == |init| as real * lo + lo;
      assert |s| as real * hi == |init| as real * hi + hi;
    }
  }

  lemma DivideBounds(a: real, n: real, lo: real, hi: real)
    requires n > 0.0 && n * lo <= a <= n * hi
    ensures lo <= a / n <= hi
  {
    var q := a / n;
    assert a == n * q;
  }

  /** A mean of values within [lo, hi] lies within [lo, hi]. */
  lemma MeanWithin(s: seq<real>, lo: real, hi: real)
    requires |s| > 0
    requires forall i :: 0 <= i < |s| ==> lo <= s[i] <= hi
    ensures lo <= Mean(s) <= hi
  {
    SumBounds(s, lo, hi);
    DivideBounds(Sum(s), |s| as real, lo, hi);
  }

  /** dict.values() in insertion order. */
  function Values(d: Dict): (r: seq<real>)
    requires d.Valid()
    ensures |r| == |d.keys|
    ensures forall i :: 0 <= i < |r| ==> r[i] == d.values[d.keys[i]]
  {
    seq(|d.keys|, i requires 0 <= i < |d.keys| => d.values[d.keys[i]])
  }

  datatype CurveSummary = CurveSummary(
    tenors: seq<real>,
    hazardRates: seq<real>,
    survivalProbs: seq<real>,
    defaultProbs: seq<real>,
    avgHazardRate: real,
    maxHazardRate: real,
    minHazardRate: real)

  // ---------------------------------------------------------------------------
  // The engine

  class HazardRateEngine {
    const bondData: Bond
    /** The CDS curve dict of the market data: the same object, not a copy. */
    const cdsCurve: SpreadCurve
    const rfCurve: Dict
    const recovery: real
    const integrationStep: real
    const maxIterations: int
    const exp: real -> real
    const fsolve: Solver
    var hazardRates: Dict
    /** The CDS quotes the curve was bootstrapped from. */
    ghost const quotes: Dict

    function Params(): Setup
      requires IsCurve(rfCurve)
    {
      Setup(exp, fsolve, t => Discount(exp, rfCurve, t), recovery, integrationStep, maxIterations)
    }

    /** A constructed engine: its hazard curve is the bootstrap of its quotes. */
    ghost predicate Valid()
      reads this
    {
      && IsCurve(rfCurve) && integrationStep > 0.0
      && recovery != 1.0
      && quotes.Valid()
      && |quotes.keys| > 0
      && hazardRates == Calibrate(Params(), quotes, |quotes.keys|)
      && IsCurve(hazardRates)
    }

    /** The field assignments of __init__, before the bootstrap runs. */
    constructor Init(md: MarketData, step: real, maxIter: int, exp: real -> real, fsolve: Solver)
      requires md.Valid()
      ensures bondData == md.bond && cdsCurve == md.cdsCurve && rfCurve == md.treasuryCurve
      ensures recovery == md.bond.recoveryRate && integrationStep == step && maxIterations == maxIter
      ensures this.exp == exp && this.fsolve == fsolve
      ensures quotes == md.cdsCurve.entries
      ensures hazardRates == Dict([], map[])
    {
      bondData := md.bond;
      cdsCurve := md.cdsCurve;
      rfCurve := md.treasuryCurve;
      recovery := md.bond.recoveryRate;
      integrationStep := step;
      maxIterations := maxIter;
      this.exp := exp;
      this.fsolve := fsolve;
      hazardRates := Dict([], map[]);
      quotes := md.cdsCurve.entries;
    }

    /** HazardRateEngine(market_data): validation, the fields, then the bootstrap.
        The treasury curve must be non-empty (the source indexes its first tenor). */
    static method Create(md: MarketData, step: real, maxIter: int, exp: real -> real, fsolve: Solver)
      returns (r: Result<HazardRateEngine>)
      requires md.Valid() && step > 0.0 && |md.treasuryCurve.keys| > 0
      ensures ValidateMarketData(md.View()).Fail? ==> r == Err(ValidateMarketData(md.View()).error)
      ensures ValidateMarketData(md.View()).Pass? && md.bond.recoveryRate == 1.0 ==> r == Err(ZeroDivision)
      ensures r.Ok? <==> ValidateMarketData(md.View()).Pass? && md.bond.recoveryRate != 1.0
      ensures r.Ok? ==>
        && fresh(r.value) && r.value.Valid()
        && r.value.cdsCurve == md.cdsCurve
        && r.value.quotes == md.cdsCurve.entries
        && r.value.rfCurve == md.treasuryCurve
        && r.value.recovery == md.bond.recoveryRate
        && r.value.exp == exp && r.value.fsolve == fsolve
        && r.value.integrationStep == step && r.value.maxIterations == maxIter
        && r.value.bondData == md.bond
    {
      var check := ValidateMarketData(md.View());
      if check.Fail? {
        return Err(check.error);
      }
      var engine := new HazardRateEngine.Init(md, step, maxIter, exp, fsolve);
      var outcome := engine.Bootstrap();
      if outcome.Fail? {
        return Err(outcome.error);
      }
      return Ok(engine);
    }

    /** _bootstrap: fill hazard_rates tenor by tenor in increasing order. */
    method Bootstrap() returns (c: Check)
      requires IsCurve(rfCurve) && integrationStep > 0.0
      requires cdsCurve.Valid() && quotes == cdsCurve.entries && |quotes.keys| > 0
      requires hazardRates == Dict([], map[])
      modifies this
      ensures c.Pass? <==> recovery != 1.0
      ensures c.Fail? ==> c.error == ZeroDivision
      ensures c.Pass? ==> Valid()
    {
      ghost var p := Params();
      var cds := cdsCurve.entries;
      var ts := Sorted(cds.keys);
      ghost var spreads := Spreads(quotes);
      var i := 0;
      while i < |ts|
        invariant 0 <= i <= |ts|
        invariant i > 0 ==> recovery != 1.0
        invariant hazardRates == Curve(ts[..i], Rates(p, ts, spreads, i))
      {
        var tenor := ts[i];
        assert tenor in cds.keys;
        var spread := FromBps(cds.values[tenor]);
        if i == 0 && recovery == 1.0 {
          return Fail(ZeroDivision);
        }
        assert spread == spreads[i];
        ghost var prev := Rates(p, ts, spreads, i);
        CurveStep(ts, prev, i, NodeRate(p, ts, spreads, i));
        var lam;
        if i == 0 {
          lam := Triangle(spread, recovery);
        } else {
          lam := SolveForHazardRate(tenor, spread, ts[i - 1]);
        }
        assert lam == NodeRate(p, ts, spreads, i);
        hazardRates := Put(hazardRates, tenor, lam);
        i := i + 1;
      }
      assert ts[..i] == ts;
      CurveValid(ts, Rates(p, ts, spreads, i));
      return Pass;
    }

    /** _solve_for_hazard_rate: fsolve from the previous node's rate, then clip;
        the credit triangle when the solver raises. */
    method SolveForHazardRate(tenor: real, spread: real, prevTenor: real) returns (lam: real)
      requires IsCurve(rfCurve) && integrationStep > 0.0 && recovery != 1.0
      requires hazardRates.Valid() && prevTenor in hazardRates.values
      ensures lam == SolvedRate(Params(), hazardRates, tenor, spread, hazardRates.values[prevTenor])
      ensures (MinHazardRate <= lam <= MaxHazardRate) || lam == Triangle(spread, recovery)
    {
      var objective := Objective(exp, t => Discount(exp, rfCurve, t), recovery, integrationStep, hazardRates, tenor, spread);
      var initialGuess := hazardRates.values[prevTenor];
      var solution := fsolve(objective, initialGuess, maxIterations);
      match solution {
        case Some(solved) =>
          lam := Clip(solved, MinHazardRate, MaxHazardRate);
        case None =>
          lam := spread / (1.0 - recovery);
      }
    }

    /** survival_prob: 1 up to time 0, else exp of minus the accumulated hazard. */
    method SurvivalProb(t: real) returns (s: real)
      requires IsCurve(hazardRates)
      ensures s == Survival(exp, hazardRates, t)
    {
      if t <= 0.0 {
        return 1.0;
      }
      var sortedTenors := Sorted(hazardRates.keys);
      SortedKeysCovered(hazardRates);
      var cumulativeHazard := AccumulateHazard(hazardRates.values, sortedTenors, t);
      return exp(-cumulativeHazard);
    }

    /** default_prob: 1 - survival_prob(t). */
    method DefaultProb(t: real) returns (d: real)
      requires IsCurve(hazardRates)
      ensures d == 1.0 - Survival(exp, hazardRates, t)
    {
      var s := SurvivalProb(t);
      d := 1.0 - s;
    }

    /** get_curve_summary: per-tenor rates, survival and default probabilities in
        tenor order, and the mean, largest and smallest rate. */
    method GetCurveSummary() returns (s: CurveSummary)
      requires IsCurve(hazardRates)
      ensures s.tenors == Sorted(hazardRates.keys)
      ensures |s.hazardRates| == |s.survivalProbs| == |s.defaultProbs| == |s.tenors|
      ensures forall i :: 0 <= i < |s.tenors| ==>
        && s.hazardRates[i] == hazardRates.values[s.tenors[i]]
        && s.survivalProbs[i] == Survival(exp, hazardRates, s.tenors[i])
        && s.defaultProbs[i] == 1.0 - s.survivalProbs[i]
      ensures s.avgHazardRate == Mean(Values(hazardRates))
      ensures s.minHazardRate <= s.avgHazardRate <= s.maxHazardRate
      ensures s.maxHazardRate in hazardRates.values.Values && s.minHazardRate in hazardRates.values.Values
      ensures forall k :: k in hazardRates.values ==> s.minHazardRate <= hazardRates.values[k] <= s.maxHazardRate
    {
      var tenors := Sorted(hazardRates.keys);
      var rates := [];
      var survival := [];
      var defaults := [];
      var i := 0;
      while i < |tenors|
        invariant 0 <= i <= |tenors|
        invariant |rates| == |survival| == |defaults| == i
        invariant forall j :: 0 <= j < i ==>
          && rates[j] == hazardRates.values[tenors[j]]
          && survival[j] == Survival(exp, hazardRates, tenors[j])
          && defaults[j] == 1.0 - survival[j]
      {
        assert tenors[i] in tenors;
        var sp := SurvivalProb(tenors[i]);
        var dp := DefaultProb(tenors[i]);
        rates := rates + [hazardRates.values[tenors[i]]];
        survival := survival + [sp];
        defaults := defaults + [dp];
        i := i + 1;
      }
      var values := Values(hazardRates);
      var mx := Max(values);
      var mn := Min(values);
      MeanWithin(values, mn, mx);
      forall k | k in hazardRates.values
        ensures mn <= hazardRates.values[k] <= mx
      {
        assert k in hazardRates.keys;
        var j :| 0 <= j < |hazardRates.keys| && hazardRates.keys[j] == k;
        assert values[j] == hazardRates.values[k];
      }
      assert mx in hazardRates.values.Values by {
        var j :| 0 <= j < |values| && values[j] == mx;
        assert hazardRates.keys[j] in hazardRates.values;
      }
      assert mn in hazardRates.values.Values by {
        var j :| 0 <= j < |values| && values[j] == mn;
        assert hazardRates.keys[j] in hazardRates.values;
      }
      s := CurveSummary(tenors, rates, survival, defaults, Mean(values), mx, mn);
    }
  }

  /** On a constructed engine whose quotes are non-negative and whose recovery is
      in [0, 1), the hazard-rate keys are exactly the CDS tenors and survival is
      a proper curve: in (0, 1] and non-increasing. */
  lemma EngineSurvivalProper(e: HazardRateEngine, t1: real, t2: real)
    requires e.Valid() && IsExp(e.exp) && 0.0 <= e.recovery < 1.0
    requires forall k :: k in e.quotes.values ==> e.quotes.values[k] >= 0.0 && k > 0.0
    requires t1 <= t2
    ensures forall k :: k in e.hazardRates.values <==> k in e.quotes.values
    ensures Survival(e.exp, e.hazardRates, t2) <= Survival(e.exp, e.hazardRates, t1) <= 1.0
  {
    BootstrapKeys(e.Params(), e.quotes);
    CalibrateNonNegative(e.Params(), e.quotes, |e.quotes.keys|);
    assert PositiveTenors(e.hazardRates.keys) by {
      forall k | k in e.hazardRates.keys ensures k > 0.0 {
        assert k in e.quotes.values;
      }
    }
    SurvivalBounds(e.exp, e.hazardRates, t1);
    SurvivalNonIncreasing(e.exp, e.hazardRates, t1, t2);
  }
}

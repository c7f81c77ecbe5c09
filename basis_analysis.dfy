/** The CDS-bond basis analyser: the Z-spread (a root of the spread-discounted
    price, with a yield-based fallback), the reference CDS tenor, the basis and
    its trading signal, the asset-swap spread, the full analysis, and the stress
    test that shocks the CDS curve in place and restores it. */
module BasisAnalysis {
  import opened Common
  import opened RateCurve
  import opened DataProvider
  import opened HazardRate
  import opened Pricing

  // ---------------------------------------------------------------------------
  // The Z-spread objective.

  /** The lower and upper ends of the Z-spread search bracket. */
  const ZLow: real := -0.10
  const ZHigh: real := 0.20

  /** The exponent -(r(t) + z) * t of a payment discounted at the risk-free rate plus z. */
  function SpreadExponent(rf: Dict, t: real, z: real): real
    requires IsCurve(rf)
  {
    -(Rate(rf, t) + z) * t
  }

  /** Payment k discounted at the risk-free rate plus z. */
  function SpreadTerm(exp: real -> real, rf: Dict, b: Bond, k: nat, z: real): real
    requires IsCurve(rf)
  {
    Payment(b, k) * exp(SpreadExponent(rf, PaymentTime(b, k), z))
  }

  /** price_with_spread: payments 1, ..., n discounted at the risk-free rate plus z. */
  function PriceWithSpread(exp: real -> real, rf: Dict, b: Bond, z: real, n: nat): real
    requires IsCurve(rf)
  {
    if n == 0 then 0.0 else PriceWithSpread(exp, rf, b, z, n - 1) + SpreadTerm(exp, rf, b, n, z)
  }

  /** The objective handed to the root finder, as a value: what it reads and the target price. */
  datatype ZObjective = ZObjective(exp: real -> real, riskFree: Dict, bond: Bond, target: real) {
    ghost predicate Valid() {
      IsCurve(riskFree)
    }

    /** objective(z) = price_with_spread(z) - target_price. */
    function Apply(z: real): real
      requires Valid()
    {
      PriceWithSpread(exp, riskFree, bond, z, bond.periods) - target
    }
  }

  /** What the bracketing root finder answers: a root, the ValueError raised when the
      objective has the same sign at both ends, or the RuntimeError of non-convergence. */
  datatype BrentOutcome = Root(z: real) | SignError | NoConvergence

  type RootFinder = (ZObjective, real, real) -> BrentOutcome

  /** What scipy's brentq promises on the Z-spread bracket: it refuses exactly the
      brackets whose ends have values of the same strict sign, and any root it
      returns lies inside the bracket. */
  ghost predicate IsBrentq(brent: RootFinder) {
    forall o: ZObjective :: o.Valid() ==>
      && (brent(o, ZLow, ZHigh).SignError? <==> o.Apply(ZLow) * o.Apply(ZHigh) > 0.0)
      && (brent(o, ZLow, ZHigh).Root? ==> ZLow <= brent(o, ZLow, ZHigh).z <= ZHigh)
  }

  /** The objective calculate_z_spread builds: the bond's own price as the target. */
  function ZTarget(m: Market, b: Bond): ZObjective {
    ZObjective(m.exp, m.riskFree, b, b.price)
  }

  /** calculate_z_spread: the root when the solver finds one; when it refuses the
      bracket, the yield at the market price over the risk-free rate at maturity,
      which is the pricer's credit spread in decimal; non-convergence propagates. */
  function ZSpread(brent: RootFinder, m: Market, b: Bond): (r: Result<real>)
    requires m.Valid()
    ensures brent(ZTarget(m, b), ZLow, ZHigh).Root? ==> r == Ok(brent(ZTarget(m, b), ZLow, ZHigh).z)
    ensures brent(ZTarget(m, b), ZLow, ZHigh).SignError? ==>
      && (r.Ok? <==> CreditSpread(b, m.riskFree, b.price).Ok?)
      && (r.Ok? ==> r.value * 10000.0 == CreditSpread(b, m.riskFree, b.price).value)
    ensures brent(ZTarget(m, b), ZLow, ZHigh).NoConvergence? ==> r == Err(RootNotConverged)
    ensures r.Err? ==> r.error == RootNotConverged || r.error == ZeroDivision
  {
    match brent(ZTarget(m, b), ZLow, ZHigh)
    case Root(z) => Ok(z)
    case NoConvergence => Err(RootNotConverged)
    case SignError =>
      NewtonOutcome(b, b.price, b.coupon, 0);
      match Ytm(b, b.price)
      case Err(e) => Err(e)
      case Ok(ytm) => Ok(ytm - Rate(m.riskFree, b.Years()))
  }

  /** A larger spread discounts more: the exponent falls as z grows, for t >= 0. */
  lemma SpreadExponentFalls(rf: Dict, t: real, z1: real, z2: real)
    requires IsCurve(rf) && t >= 0.0 && z1 <= z2
    ensures SpreadExponent(rf, t, z2) <= SpreadExponent(rf, t, z1)
  {
    assert (z2 - z1) * t >= 0.0;
  }

  lemma SpreadTermFalls(exp: real -> real, rf: Dict, b: Bond, k: nat, z1: real, z2: real)
    requires IsExp(exp) && IsCurve(rf) && z1 <= z2
    requires b.coupon >= 0.0 && b.Face() >= 0.0
    ensures SpreadTerm(exp, rf, b, k, z2) <= SpreadTerm(exp, rf, b, k, z1)
  {
    var t := PaymentTime(b, k);
    PaymentTimeMonotone(b, 0, k);
    SpreadExponentFalls(rf, t, z1, z2);
    ExpMonotone(exp, SpreadExponent(rf, t, z2), SpreadExponent(rf, t, z1));
    PaymentNonNegative(b, k);
    MulMonotone(Payment(b, k), exp(SpreadExponent(rf, t, z2)), exp(SpreadExponent(rf, t, z1)));
  }

  /** For non-negative coupon and face value the spread-discounted price never
      rises as the spread grows. */
  lemma {:induction false} PriceWithSpreadFalls(exp: real -> real, rf: Dict, b: Bond, z1: real, z2: real, n: nat)
    requires IsExp(exp) && IsCurve(rf) && z1 <= z2
    requires b.coupon >= 0.0 && b.Face() >= 0.0
    ensures PriceWithSpread(exp, rf, b, z2, n) <= PriceWithSpread(exp, rf, b, z1, n)
  {
    if n > 0 {
      PriceWithSpreadFalls(exp, rf, b, z1, z2, n - 1);
      SpreadTermFalls(exp, rf, b, n, z1, z2);
    }
  }

  /** At a zero spread the Z-spread price is the pricer's riskless value of the
      same schedule: each payment discounted by exp(-r(t) t) alone. */
  lemma {:induction false} PriceWithSpreadAtZero(exp: real -> real, hazard: Dict, rf: Dict, b: Bond, n: nat)
    requires IsCurve(hazard) && IsCurve(rf)
    ensures PriceWithSpread(exp, rf, b, 0.0, n) == RisklessPv(Schedule(Market(exp, hazard, rf), b, n))
  {
    if n > 0 {
      var m := Market(exp, hazard, rf);
      var rows := Schedule(m, b, n);
      PriceWithSpreadAtZero(exp, hazard, rf, b, n - 1);
      assert rows[..n - 1] == Schedule(m, b, n - 1);
      assert rows[n - 1] == Row(m, b, n);
      RowAtZeroSpread(m, b, n);
    }
  }

  lemma RowAtZeroSpread(m: Market, b: Bond, k: nat)
    requires m.Valid()
    ensures RisklessValue(Row(m, b, k)) == SpreadTerm(m.exp, m.riskFree, b, k, 0.0)
  {
    var t := PaymentTime(b, k);
    assert SpreadExponent(m.riskFree, t, 0.0) == DiscountExponent(m.riskFree, t);
    RisklessTerm(Row(m, b, k), Payment(b, k), m.exp(SpreadExponent(m.riskFree, t, 0.0)));
  }

  lemma RisklessTerm(row: CashFlow, payment: real, df: real)
    requires row.payment == payment && row.discountFactor == df
    ensures RisklessValue(row) == payment * df
  {
  }

  /** a * c > 0 exactly when both are positive or both negative; with c <= a that
      is c > 0 or a < 0. */
  lemma SameSign(a: real, c: real)
    requires c <= a
    ensures a * c > 0.0 <==> c > 0.0 || a < 0.0
  {
    if c > 0.0 {
      assert a * c > 0.0;
    } else if a < 0.0 {
      assert a * c > 0.0;
    } else {
      assert a >= 0.0 && c <= 0.0;
      assert a * c <= 0.0;
    }
  }

  /** The fallback is taken exactly when the market price lies outside the prices
      at the two ends of the bracket; inside, the answer is a root within the
      bracket or the non-convergence error. */
  lemma ZSpreadFallsBack(brent: RootFinder, m: Market, b: Bond)
    requires m.Valid() && IsExp(m.exp) && IsBrentq(brent)
    requires b.coupon >= 0.0 && b.Face() >= 0.0
    ensures brent(ZTarget(m, b), ZLow, ZHigh).SignError? <==>
      b.price < PriceWithSpread(m.exp, m.riskFree, b, ZHigh, b.periods)
      || b.price > PriceWithSpread(m.exp, m.riskFree, b, ZLow, b.periods)
    ensures PriceWithSpread(m.exp, m.riskFree, b, ZHigh, b.periods) <= b.price <= PriceWithSpread(m.exp, m.riskFree, b, ZLow, b.periods) ==>
      ZSpread(brent, m, b) == Err(RootNotConverged) || ZLow <= ZSpread(brent, m, b).value <= ZHigh
  {
    var o := ZTarget(m, b);
    PriceWithSpreadFalls(m.exp, m.riskFree, b, ZLow, ZHigh, b.periods);
    SameSign(o.Apply(ZLow), o.Apply(ZHigh));
  }

  // ---------------------------------------------------------------------------
  // The reference tenor and the CDS spread.

  function Distance(t: real, target: real): real {
    Abs(t - target)
  }

  /** min(tenors, key=|tenor - maturity|): an index of least distance, and the
      first such in iteration order. */
  function ClosestIndex(ts: seq<real>, target: real): (i: nat)
    requires |ts| > 0
    ensures i < |ts|
    ensures forall j :: 0 <= j < |ts| ==> Distance(ts[i], target) <= Distance(ts[j], target)
    ensures forall j :: 0 <= j < i ==> Distance(ts[j], target) > Distance(ts[i], target)
  {
    if |ts| == 1 then 0
    else
      var best := ClosestIndex(ts[..|ts| - 1], target);
      if Distance(ts[|ts| - 1], target) < Distance(ts[best], target) then |ts| - 1 else best
  }

  /** The closest tenor is the only one that is nearest and beaten by nothing before it. */
  lemma ClosestUnique(ts: seq<real>, target: real, i: nat)
    requires i < |ts|
    requires forall j :: 0 <= j < |ts| ==> Distance(ts[i], target) <= Distance(ts[j], target)
    requires forall j :: 0 <= j < i ==> Distance(ts[j], target) > Distance(ts[i], target)
    ensures i == ClosestIndex(ts, target)
  {
    var c := ClosestIndex(ts, target);
    assert Distance(ts[i], target) <= Distance(ts[c], target);
    assert Distance(ts[c], target) <= Distance(ts[i], target);
  }

  /** The tenor analyze compares against: the one given, else the closest to maturity. */
  function ReferenceTenor(cds: Dict, reference: Option<real>, maturity: real): (r: Option<real>)
    ensures reference.Some? ==> r == reference
    ensures reference.None? ==> (r.None? <==> |cds.keys| == 0)
    ensures reference.None? && r.Some? ==> r.value in cds.keys
    ensures reference.None? && r.Some? ==> forall j :: 0 <= j < |cds.keys| ==>
      Distance(r.value, maturity) <= Distance(cds.keys[j], maturity)
  {
    match reference
    case Some(t) => Some(t)
    case None => if |cds.keys| == 0 then None else Some(cds.keys[ClosestIndex(cds.keys, maturity)])
  }

  /** cds_curve.get(tenor, 0). */
  function CdsSpreadAt(cds: Dict, tenor: real): (s: real)
    ensures tenor in cds.values ==> s == cds.values[tenor]
    ensures tenor !in cds.values ==> s == 0.0
  {
    if tenor in cds.values then cds.values[tenor] else 0.0
  }

  // ---------------------------------------------------------------------------
  // The basis and the trading signal.

  function ToBps(x: real): real {
    x * 10000.0
  }

  /** CDS spread minus Z-spread, both in basis points. */
  function Basis(cdsSpread: real, zSpreadBps: real): real {
    cdsSpread - zSpreadBps
  }

  datatype Signal = StrongNegative | ModerateNegative | StrongPositive | ModeratePositive | Neutral

  /** The five bands of the basis, tested in the source's order. */
  function Classify(basis: real): (s: Signal)
    ensures s == StrongNegative <==> basis < -20.0
    ensures s == ModerateNegative <==> -20.0 <= basis < 0.0
    ensures s == StrongPositive <==> basis > 20.0
    ensures s == ModeratePositive <==> 0.0 < basis <= 20.0
    ensures s == Neutral <==> basis == 0.0
  {
    if basis < -20.0 then StrongNegative
    else if basis < 0.0 then ModerateNegative
    else if basis > 20.0 then StrongPositive
    else if basis > 0.0 then ModeratePositive
    else Neutral
  }

  /** The signals from most negative to most positive. */
  function Rank(s: Signal): nat {
    match s
    case StrongNegative => 0
    case ModerateNegative => 1
    case Neutral => 2
    case ModeratePositive => 3
    case StrongPositive => 4
  }

  /** A larger basis never gives a more negative signal. */
  lemma ClassifyMonotone(b1: real, b2: real)
    requires b1 <= b2
    ensures Rank(Classify(b1)) <= Rank(Classify(b2))
  {
  }

  // ---------------------------------------------------------------------------
  // The asset-swap spread.

  /** The spread s (in bps) over the swap rate, less the coupon, times the modified
      duration and par, is the price gap to par. */
  predicate RecoversPriceGap(s: real, par: real, price: real, modified: real, coupon: real, swap: real) {
    (s / 10000.0 + swap - coupon) * modified * par == par - price
  }

  /** ((par - price) / modified / par + coupon - swap) * 10000. */
  function AswFormula(par: real, price: real, modified: real, coupon: real, swap: real): (s: real)
    requires modified != 0.0 && par != 0.0
    ensures RecoversPriceGap(s, par, price, modified, coupon, swap)
  {
    var gap := (par - price) / modified / par;
    assert gap * modified * par == par - price;
    (gap + coupon - swap) * 10000.0
  }

  /** With positive duration and par, a bond below par pays an asset-swap spread
      above coupon minus swap rate, a bond above par one below it, a bond at par
      exactly coupon minus swap rate. */
  lemma AswAgainstPar(par: real, price: real, modified: real, coupon: real, swap: real)
    requires modified > 0.0 && par > 0.0
    ensures price < par <==> AswFormula(par, price, modified, coupon, swap) > (coupon - swap) * 10000.0
    ensures price == par <==> AswFormula(par, price, modified, coupon, swap) == (coupon - swap) * 10000.0
  {
    var s := AswFormula(par, price, modified, coupon, swap);
    var d := s / 10000.0 + swap - coupon;
    var w := modified * par;
    assert w > 0.0;
    assert d * w == par - price;
    assert s > (coupon - swap) * 10000.0 <==> d > 0.0;
    assert s == (coupon - swap) * 10000.0 <==> d == 0.0;
    if d > 0.0 {
      assert d * w > 0.0;
    } else if d < 0.0 {
      assert d * w < 0.0;
    }
  }

  /** calculate_asset_swap_spread: the duration at the market price, then the
      formula; a zero modified duration or par value is a division by zero. */
  function AssetSwapSpread(m: Market, b: Bond): (r: Result<real>)
    requires m.Valid()
    ensures var d := Duration(Schedule(m, b, b.periods), b, b.price);
      r.Ok? <==> d.Ok? && d.value.modified != 0.0 && b.Face() != 0.0
    ensures r.Ok? ==> RecoversPriceGap(r.value, b.Face(), b.price,
      Duration(Schedule(m, b, b.periods), b, b.price).value.modified, b.coupon, Rate(m.riskFree, b.Years()))
    ensures r.Err? ==> r.error == ZeroDivision
  {
    match Duration(Schedule(m, b, b.periods), b, b.price)
    case Err(e) => Err(e)
    case Ok(d) =>
      if d.modified == 0.0 || b.Face() == 0.0 then Err(ZeroDivision)
      else Ok(AswFormula(b.Face(), b.price, d.modified, b.coupon, Rate(m.riskFree, b.Years())))
  }

  // ---------------------------------------------------------------------------
  // The analysis.

  datatype Analysis = Analysis(
    zSpreadBps: real,
    cdsSpreadBps: real,
    cdsTenor: real,
    basisBps: real,
    signal: Signal,
    marketPrice: real,
    syntheticPrice: real,
    priceDifference: real,
    assetSwapSpreadBps: real,
    bondMaturity: real)

  /** analyze: the Z-spread, the reference tenor and its CDS spread, the basis and
      its signal, the synthetic price and the asset-swap spread; the first failing
      step's error is the result. */
  function AnalyzeBasis(brent: RootFinder, m: Market, b: Bond, cds: Dict, reference: Option<real>): (r: Result<Analysis>)
    requires m.Valid()
    ensures r.Ok? <==>
      ZSpread(brent, m, b).Ok? && ReferenceTenor(cds, reference, b.Years()).Some? && AssetSwapSpread(m, b).Ok?
    ensures ZSpread(brent, m, b).Err? ==> r == Err(ZSpread(brent, m, b).error)
    ensures ZSpread(brent, m, b).Ok? && ReferenceTenor(cds, reference, b.Years()).None? ==> r == Err(NoTenors)
    ensures ZSpread(brent, m, b).Ok? && ReferenceTenor(cds, reference, b.Years()).Some? && AssetSwapSpread(m, b).Err? ==>
      r == Err(AssetSwapSpread(m, b).error)
    ensures r.Ok? ==>
      && r.value.zSpreadBps == ToBps(ZSpread(brent, m, b).value)
      && r.value.cdsTenor == ReferenceTenor(cds, reference, b.Years()).value
      && r.value.cdsSpreadBps == CdsSpreadAt(cds, r.value.cdsTenor)
      && r.value.basisBps + r.value.zSpreadBps == r.value.cdsSpreadBps
      && r.value.signal == Classify(r.value.basisBps)
      && r.value.marketPrice == b.price
      && r.value.syntheticPrice == TotalPv(Schedule(m, b, b.periods))
      && r.value.priceDifference + r.value.syntheticPrice == r.value.marketPrice
      && r.value.assetSwapSpreadBps == AssetSwapSpread(m, b).value
      && r.value.bondMaturity == b.Years()
  {
    match ZSpread(brent, m, b)
    case Err(e) => Err(e)
    case Ok(z) =>
      match ReferenceTenor(cds, reference, b.Years())
      case None => Err(NoTenors)
      case Some(tenor) =>
        var cdsSpread := CdsSpreadAt(cds, tenor);
        var basis := Basis(cdsSpread, ToBps(z));
        var synthetic := TotalPv(Schedule(m, b, b.periods));
        match AssetSwapSpread(m, b)
        case Err(e) => Err(e)
        case Ok(asw) =>
          Ok(Analysis(ToBps(z), cdsSpread, tenor, basis, Classify(basis),
            b.price, synthetic, b.price - synthetic, asw, b.Years()))
  }

  // ---------------------------------------------------------------------------
  // The stress test.

  const DefaultShocks: seq<real> := [-50.0, -25.0, 0.0, 25.0, 50.0, 100.0]

  /** `d` is `d0` with every tenor set to `level`, in the same insertion order. */
  ghost predicate FlattenedFrom(d: Dict, d0: Dict, level: real) {
    && d.keys == d0.keys
    && (forall k :: k in d.values <==> k in d0.values)
    && (forall k :: k in d.values ==> d.values[k] == level)
  }

  /** base_cds + shock. */
  function ShockLevel(base: Analysis, shock: real): real {
    base.cdsSpreadBps + shock
  }

  /** The analysis of a curve flattened at `level`: the base analysis with the
      CDS spread, the basis and the signal of that level. */
  function Reanalysed(base: Analysis, level: real): Analysis {
    var basis := Basis(level, base.zSpreadBps);
    base.(cdsSpreadBps := level, basisBps := basis, signal := Classify(basis))
  }

  /** Only the CDS spread depends on the curve's values: flattening the curve
      changes nothing else, and the reference tenor, a key of the curve, then
      quotes the flat level. */
  lemma ShockedAnalysis(brent: RootFinder, m: Market, b: Bond, cds: Dict, shocked: Dict, base: Analysis, level: real)
    requires m.Valid() && cds.Valid() && FlattenedFrom(shocked, cds, level)
    requires AnalyzeBasis(brent, m, b, cds, None) == Ok(base)
    ensures AnalyzeBasis(brent, m, b, shocked, None) == Ok(Reanalysed(base, level))
  {
    var tenor := ReferenceTenor(cds, None, b.Years()).value;
    assert ReferenceTenor(shocked, None, b.Years()) == Some(tenor);
    assert tenor in cds.values;
  }

  datatype StressRow = StressRow(shock: real, newCdsSpread: real, zSpreadBps: real, basisBps: real, signal: Signal)

  /** The row of one shock, read off the base analysis. */
  function ShockRow(base: Analysis, shock: real): StressRow {
    var level := ShockLevel(base, shock);
    StressRow(shock, level, base.zSpreadBps, Basis(level, base.zSpreadBps), Classify(Basis(level, base.zSpreadBps)))
  }

  /** One row per shock, in the order given. */
  function ShockRows(base: Analysis, shocks: seq<real>): (rows: seq<StressRow>)
    ensures |rows| == |shocks|
    ensures forall i :: 0 <= i < |shocks| ==> rows[i] == ShockRow(base, shocks[i])
  {
    if shocks == [] then [] else ShockRows(base, shocks[..|shocks| - 1]) + [ShockRow(base, shocks[|shocks| - 1])]
  }

  /** Every stress row keeps the base Z-spread, quotes base + shock, and its basis
      moves one for one with the shock. */
  lemma StressRowsMeaning(base: Analysis, shocks: seq<real>, i: nat)
    requires i < |shocks|
    ensures ShockRows(base, shocks)[i].zSpreadBps == base.zSpreadBps
    ensures ShockRows(base, shocks)[i].newCdsSpread == base.cdsSpreadBps + shocks[i]
    ensures ShockRows(base, shocks)[i].basisBps == Basis(base.cdsSpreadBps, base.zSpreadBps) + shocks[i]
  {
  }

  /** The stress test's inner loop: every tenor of the curve, in place, set to `level`. */
  method ShockCurve(curve: SpreadCurve, level: real)
    requires curve.Valid()
    modifies curve
    ensures curve.Valid() && FlattenedFrom(curve.entries, old(curve.entries), level)
  {
    ghost var e0 := curve.entries;
    var tenors := curve.entries.keys;
    var i := 0;
    while i < |tenors|
      invariant 0 <= i <= |tenors|
      invariant curve.Valid() && curve.entries.keys == tenors
      invariant forall k :: k in curve.entries.values <==> k in e0.values
      invariant forall j :: 0 <= j < i ==> curve.entries.values[tenors[j]] == level
    {
      curve.Set(tenors[i], level);
      i := i + 1;
    }
    forall k | k in curve.entries.values ensures curve.entries.values[k] == level {
      var j :| 0 <= j < |tenors| && tenors[j] == k;
    }
  }

  class BasisAnalyzer {
    /** The market data, shared with whoever built it: its CDS curve entry is rebound here. */
    const marketData: MarketData
    const pricer: SyntheticPricer
    const brent: RootFinder

    ghost predicate Valid()
      reads this, marketData, marketData.cdsCurve, pricer, pricer.engine
    {
      marketData.Valid() && pricer.Valid() && pricer.bondData == marketData.bond
    }

    constructor (marketData: MarketData, pricer: SyntheticPricer, brent: RootFinder)
      ensures this.marketData == marketData && this.pricer == pricer && this.brent == brent
    {
      this.marketData := marketData;
      this.pricer := pricer;
      this.brent := brent;
    }

    /** One pass of the stress loop: the curve copied, every tenor of the current
        curve object set to base + shock, the analysis rerun on it, and the market
        data's curve rebound to the copy. */
    method ApplyShock(ghost m: Market, ghost e0: Dict, base: Analysis, shock: real) returns (row: StressRow)
      requires Valid() && pricer.MarketView() == m
      requires marketData.cdsCurve.entries == e0
      requires AnalyzeBasis(brent, m, marketData.bond, e0, None) == Ok(base)
      modifies marketData, marketData.cdsCurve
      ensures Valid() && fresh(marketData.cdsCurve) && marketData.cdsCurve.entries == e0
      ensures marketData.bond == old(marketData.bond) && marketData.treasuryCurve == old(marketData.treasuryCurve)
      ensures FlattenedFrom(old(marketData.cdsCurve).entries, e0, ShockLevel(base, shock))
      ensures row == ShockRow(base, shock)
    {
      var level := ShockLevel(base, shock);
      var originalCurve := marketData.cdsCurve.Copy();
      ShockCurve(marketData.cdsCurve, level);
      ShockedAnalysis(brent, m, marketData.bond, e0, marketData.cdsCurve.entries, base, level);
      var shocked := AnalyzeBasis(brent, pricer.MarketView(), marketData.bond, marketData.cdsCurve.entries, None);
      row := StressRow(shock, level, shocked.value.zSpreadBps, shocked.value.basisBps, shocked.value.signal);
      marketData.cdsCurve := originalCurve;
    }

    /** The loop of stress_test_basis: one pass per shock, in order. */
    method ApplyShocks(ghost m: Market, ghost e0: Dict, base: Analysis, shocks: seq<real>) returns (rows: seq<StressRow>)
      requires Valid() && pricer.MarketView() == m
      requires marketData.cdsCurve.entries == e0
      requires AnalyzeBasis(brent, m, marketData.bond, e0, None) == Ok(base)
      modifies marketData, marketData.cdsCurve
      ensures Valid() && marketData.cdsCurve.entries == e0
      ensures marketData.bond == old(marketData.bond) && marketData.treasuryCurve == old(marketData.treasuryCurve)
      ensures rows == ShockRows(base, shocks)
      ensures shocks == [] ==> marketData.cdsCurve == old(marketData.cdsCurve)
      ensures shocks != [] ==> FlattenedFrom(old(marketData.cdsCurve).entries, e0, ShockLevel(base, shocks[0]))
    {
      ghost var c0 := marketData.cdsCurve;
      rows := [];
      var i := 0;
      while i < |shocks|
        invariant 0 <= i <= |shocks|
        invariant Valid() && pricer.MarketView() == m
        invariant marketData.bond == old(marketData.bond) && marketData.treasuryCurve == old(marketData.treasuryCurve)
        invariant marketData.cdsCurve.entries == e0
        invariant i == 0 ==> marketData.cdsCurve == c0
        invariant i > 0 ==> fresh(marketData.cdsCurve) && FlattenedFrom(c0.entries, e0, ShockLevel(base, shocks[0]))
        invariant rows == ShockRows(base, shocks[..i])
      {
        var row := ApplyShock(m, e0, base, shocks[i]);
        rows := rows + [row];
        assert shocks[..i + 1][..i] == shocks[..i];
        i := i + 1;
      }
      assert shocks[..i] == shocks;
    }

    /** stress_test_basis: the base analysis, then one pass per shock, in order.
        The first pass overwrites the original curve object in place; later passes
        overwrite copies, so that object ends up holding base + the first shock. */
    method StressTestBasis(spreadShocks: Option<seq<real>>) returns (r: Result<seq<StressRow>>)
      requires Valid()
      modifies marketData, marketData.cdsCurve
      ensures Valid()
      ensures marketData.bond == old(marketData.bond) && marketData.treasuryCurve == old(marketData.treasuryCurve)
      ensures marketData.cdsCurve.entries == old(marketData.cdsCurve.entries)
      ensures var shocks := if spreadShocks.Some? then spreadShocks.value else DefaultShocks;
        match AnalyzeBasis(brent, pricer.MarketView(), marketData.bond, old(marketData.cdsCurve.entries), None)
        case Err(e) => r == Err(e) && marketData.cdsCurve == old(marketData.cdsCurve)
        case Ok(base) =>
          && r == Ok(ShockRows(base, shocks))
          && (shocks == [] ==> marketData.cdsCurve == old(marketData.cdsCurve))
          && (shocks != [] ==> FlattenedFrom(old(marketData.cdsCurve).entries, old(marketData.cdsCurve.entries), ShockLevel(base, shocks[0])))
      ensures pricer.engine.cdsCurve == old(marketData.cdsCurve) && r.Ok? && r.value != [] ==>
        FlattenedFrom(pricer.engine.cdsCurve.entries, old(marketData.cdsCurve.entries), r.value[0].newCdsSpread)
    {
      var shocks := if spreadShocks.Some? then spreadShocks.value else DefaultShocks;
      var baseAnalysis := AnalyzeBasis(brent, pricer.MarketView(), marketData.bond, marketData.cdsCurve.entries, None);
      if baseAnalysis.Err? {
        return Err(baseAnalysis.error);
      }
      var rows := ApplyShocks(pricer.MarketView(), marketData.cdsCurve.entries, baseAnalysis.value, shocks);
      return Ok(rows);
    }
  }
}

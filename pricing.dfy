/** The synthetic pricer: the bond's coupon schedule valued with CDS-implied
    survival probabilities and risk-free discount factors, the duration,
    convexity and credit-spread measures built on it, and the Newton iteration
    for the yield to maturity. */
module Pricing {
  import opened Common
  import opened RateCurve
  import opened DataProvider
  import opened HazardRate

  // ---------------------------------------------------------------------------
  // The payment schedule: periods 1, ..., n at times k / frequency.

  /** The time of payment k, k * (1 / frequency). */
  function PaymentTime(b: Bond, k: nat): real {
    k as real / b.Freq() as real
  }

  /** (coupon_rate / frequency) * face_value. */
  function CouponPayment(b: Bond): real {
    b.coupon / b.Freq() as real * b.Face()
  }

  /** The face value on the last payment, nothing on the others. */
  function Principal(b: Bond, k: nat): real {
    if k == b.periods then b.Face() else 0.0
  }

  function Payment(b: Bond, k: nat): real {
    CouponPayment(b) + Principal(b, k)
  }

  /** One row of the cash-flow table. */
  datatype CashFlow = CashFlow(
    time: real,
    payment: real,
    coupon: real,
    principal: real,
    riskFreeRate: real,
    discountFactor: real,
    survivalProb: real,
    defaultProb: real,
    pv: real)

  /** What the pricer reads from the engine and the market data: exp, the
      engine's hazard curve and the treasury curve. */
  datatype Market = Market(exp: real -> real, hazard: Dict, riskFree: Dict) {
    ghost predicate Valid() {
      IsCurve(hazard) && IsCurve(riskFree)
    }
  }

  /** The row of payment k: the payment weighted by the survival probability
      and the discount factor exp(-r(t) t) at its time. */
  function Row(m: Market, b: Bond, k: nat): CashFlow
    requires m.Valid()
  {
    var t := PaymentTime(b, k);
    var s := Survival(m.exp, m.hazard, t);
    var df := Discount(m.exp, m.riskFree, t);
    CashFlow(t, Payment(b, k), CouponPayment(b), Principal(b, k), Rate(m.riskFree, t), df, s, 1.0 - s, PresentValue(Payment(b, k), s, df))
  }

  /** payment * survival_prob * df. */
  function PresentValue(payment: real, survival: real, df: real): real {
    payment * survival * df
  }

  /** The rows of payments 1, ..., n. */
  function Schedule(m: Market, b: Bond, n: nat): (rows: seq<CashFlow>)
    requires m.Valid()
    ensures |rows| == n
    ensures forall i :: 0 <= i < n ==> rows[i] == Row(m, b, i + 1)
  {
    if n == 0 then [] else Schedule(m, b, n - 1) + [Row(m, b, n)]
  }

  function TotalPv(rows: seq<CashFlow>): real {
    if rows == [] then 0.0 else TotalPv(rows[..|rows| - 1]) + rows[|rows| - 1].pv
  }

  /** One more row: the schedule grows by Row k. */
  lemma ScheduleExtends(m: Market, b: Bond, k: nat, rows: seq<CashFlow>, row: CashFlow)
    requires m.Valid() && k >= 1
    requires rows == Schedule(m, b, k - 1) && row == Row(m, b, k)
    ensures rows + [row] == Schedule(m, b, k)
  {
  }

  /** One more row: every running sum grows by that row's term. */
  lemma SumsExtend(rows: seq<CashFlow>, row: CashFlow, interval: real)
    ensures TotalPv(rows + [row]) == TotalPv(rows) + row.pv
    ensures WeightedPv(rows + [row]) == WeightedPv(rows) + WeightedTerm(row)
    ensures ConvexitySum(rows + [row], interval) == ConvexitySum(rows, interval) + ConvexityTerm(row, interval)
  {
    assert (rows + [row])[..|rows|] == rows;
  }

  /** A payment discounted without the credit adjustment. */
  function RisklessValue(row: CashFlow): real {
    row.payment * row.discountFactor
  }

  /** The same payments discounted without the credit adjustment. */
  function RisklessPv(rows: seq<CashFlow>): real {
    if rows == [] then 0.0 else RisklessPv(rows[..|rows| - 1]) + RisklessValue(rows[|rows| - 1])
  }

  /** t * pv, a payment's contribution to the Macaulay numerator. */
  function WeightedTerm(row: CashFlow): real {
    row.time * row.pv
  }

  function WeightedPv(rows: seq<CashFlow>): real {
    if rows == [] then 0.0 else WeightedPv(rows[..|rows| - 1]) + WeightedTerm(rows[|rows| - 1])
  }

  function ConvexityTerm(row: CashFlow, interval: real): real {
    row.time * (row.time + interval) * row.pv
  }

  function ConvexitySum(rows: seq<CashFlow>, interval: real): real {
    if rows == [] then 0.0 else ConvexitySum(rows[..|rows| - 1], interval) + ConvexityTerm(rows[|rows| - 1], interval)
  }

  function PrincipalSum(rows: seq<CashFlow>): real {
    if rows == [] then 0.0 else PrincipalSum(rows[..|rows| - 1]) + rows[|rows| - 1].principal
  }

  // ---------------------------------------------------------------------------
  // Properties of the schedule.

  /** Every payment is the coupon plus the principal, and the principal is the
      face value on the last payment and nothing before it, so over the whole
      schedule it is paid exactly once. */
  lemma {:induction false} PrincipalOnce(m: Market, b: Bond, n: nat)
    requires m.Valid() && n <= b.periods
    ensures forall i :: 0 <= i < n ==>
      && Schedule(m, b, n)[i].payment == Schedule(m, b, n)[i].coupon + Schedule(m, b, n)[i].principal
      && Schedule(m, b, n)[i].coupon == CouponPayment(b)
      && Schedule(m, b, n)[i].principal == (if i + 1 == b.periods then b.Face() else 0.0)
    ensures PrincipalSum(Schedule(m, b, n)) == (if n == b.periods && n > 0 then b.Face() else 0.0)
  {
    if n > 0 {
      PrincipalOnce(m, b, n - 1);
      assert Schedule(m, b, n)[..n - 1] == Schedule(m, b, n - 1);
    }
  }

  lemma PaymentNonNegative(b: Bond, k: nat)
    requires b.coupon >= 0.0 && b.Face() >= 0.0
    ensures CouponPayment(b) >= 0.0 && Payment(b, k) >= 0.0
  {
    MulMonotone(b.Face(), 0.0, b.coupon / b.Freq() as real);
  }

  /** A row's value lies between 0 and its riskless value. */
  lemma RowBelowRiskless(m: Market, b: Bond, k: nat)
    requires m.Valid() && IsExp(m.exp)
    requires NonNegativeRates(m.hazard) && PositiveTenors(m.hazard.keys)
    requires Payment(b, k) >= 0.0
    ensures 0.0 <= Row(m, b, k).pv <= RisklessValue(Row(m, b, k))
  {
    var t := PaymentTime(b, k);
    SurvivalBounds(m.exp, m.hazard, t);
    PvWithin(Payment(b, k), Survival(m.exp, m.hazard, t), Discount(m.exp, m.riskFree, t));
  }

  /** A non-negative payment weighted by a probability and a positive discount
      factor is worth between nothing and its discounted value. */
  lemma PvWithin(payment: real, survival: real, df: real)
    requires payment >= 0.0 && 0.0 <= survival <= 1.0 && df > 0.0
    ensures 0.0 <= PresentValue(payment, survival, df) <= payment * df
  {
    assert payment * survival * df == survival * (payment * df);
    MulMonotone(payment * df, survival, 1.0);
  }

  lemma {:induction false} PvBetween(rows: seq<CashFlow>)
    requires forall i :: 0 <= i < |rows| ==> 0.0 <= rows[i].pv <= RisklessValue(rows[i])
    ensures 0.0 <= TotalPv(rows) <= RisklessPv(rows)
  {
    if rows != [] {
      PvBetween(rows[..|rows| - 1]);
    }
  }

  /** With non-negative hazard rates, coupon and face value, the synthetic price
      is non-negative and at most the riskless price of the same payments:
      credit risk can only lower the value. */
  lemma SyntheticBelowRiskless(m: Market, b: Bond)
    requires m.Valid() && IsExp(m.exp)
    requires NonNegativeRates(m.hazard) && PositiveTenors(m.hazard.keys)
    requires b.coupon >= 0.0 && b.Face() >= 0.0
    ensures 0.0 <= TotalPv(Schedule(m, b, b.periods)) <= RisklessPv(Schedule(m, b, b.periods))
  {
    var rows := Schedule(m, b, b.periods);
    forall i | 0 <= i < |rows|
      ensures 0.0 <= rows[i].pv <= RisklessValue(rows[i])
    {
      PaymentNonNegative(b, i + 1);
      RowBelowRiskless(m, b, i + 1);
    }
    PvBetween(rows);
  }

  // ---------------------------------------------------------------------------
  // Duration and convexity of a schedule.

  /** Macaulay duration: the PV-weighted mean payment time, 0 when the PV sum is not positive. */
  function Macaulay(rows: seq<CashFlow>): real {
    if TotalPv(rows) > 0.0 then WeightedPv(rows) / TotalPv(rows) else 0.0
  }

  lemma {:induction false} WeightedBetween(rows: seq<CashFlow>, lo: real, hi: real)
    requires forall i :: 0 <= i < |rows| ==> rows[i].pv >= 0.0 && lo <= rows[i].time <= hi
    ensures lo * TotalPv(rows) <= WeightedPv(rows) <= hi * TotalPv(rows)
  {
    if rows != [] {
      var last := rows[|rows| - 1];
      WeightedBetween(rows[..|rows| - 1], lo, hi);
      MulMonotone(last.pv, lo, last.time);
      MulMonotone(last.pv, last.time, hi);
    }
  }

  /** With non-negative present values and a positive total, the Macaulay
      duration lies between the first and the last payment time. */
  lemma MacaulayBetween(rows: seq<CashFlow>, lo: real, hi: real)
    requires forall i :: 0 <= i < |rows| ==> rows[i].pv >= 0.0 && lo <= rows[i].time <= hi
    requires TotalPv(rows) > 0.0
    ensures lo <= Macaulay(rows) <= hi
  {
    WeightedBetween(rows, lo, hi);
    DivideBetween(WeightedPv(rows), TotalPv(rows), lo, hi);
  }

  lemma DivideBetween(w: real, total: real, lo: real, hi: real)
    requires total > 0.0 && lo * total <= w <= hi * total
    ensures lo <= w / total <= hi
  {
    var q := w / total;
    assert q * total == w;
  }

  /** The schedule's payment times run from 1 / frequency to the maturity. */
  lemma ScheduleTimes(m: Market, b: Bond, i: nat)
    requires m.Valid() && i < b.periods
    ensures PaymentTime(b, 1) <= Schedule(m, b, b.periods)[i].time <= PaymentTime(b, b.periods)
    ensures PaymentTime(b, b.periods) == b.Years()
  {
    assert Schedule(m, b, b.periods)[i] == Row(m, b, i + 1);
    PaymentTimeMonotone(b, 1, i + 1);
    PaymentTimeMonotone(b, i + 1, b.periods);
  }

  lemma PaymentTimeMonotone(b: Bond, j: nat, k: nat)
    requires j <= k
    ensures 0.0 <= PaymentTime(b, j) <= PaymentTime(b, k)
  {
    var f := b.Freq() as real;
    assert j as real / f <= k as real / f;
  }

  /** For a bond with non-negative hazard rates, coupon and face value and a
      positive synthetic price, the Macaulay duration lies between the first
      payment time and the maturity. */
  lemma DurationWithinSchedule(m: Market, b: Bond)
    requires m.Valid() && IsExp(m.exp)
    requires NonNegativeRates(m.hazard) && PositiveTenors(m.hazard.keys)
    requires b.coupon >= 0.0 && b.Face() >= 0.0
    requires TotalPv(Schedule(m, b, b.periods)) > 0.0
    ensures PaymentTime(b, 1) <= Macaulay(Schedule(m, b, b.periods)) <= b.Years()
  {
    var rows := Schedule(m, b, b.periods);
    forall i | 0 <= i < |rows|
      ensures rows[i].pv >= 0.0 && PaymentTime(b, 1) <= rows[i].time <= PaymentTime(b, b.periods)
    {
      PaymentNonNegative(b, i + 1);
      RowBelowRiskless(m, b, i + 1);
      ScheduleTimes(m, b, i);
    }
    MacaulayBetween(rows, PaymentTime(b, 1), PaymentTime(b, b.periods));
    ScheduleTimes(m, b, 0);
  }

  /** Convexity: sum of t (t + 1/f) PV over price * f^2, 0 unless the price is positive. */
  function Convexity(rows: seq<CashFlow>, price: real, freq: PositiveInt): real {
    var f := freq as real;
    if price > 0.0 then ConvexitySum(rows, 1.0 / f) / (price * (f * f)) else 0.0
  }

  /** Convexity in terms of a running sum taken at interval 1/f. */
  lemma ConvexityFromSum(rows: seq<CashFlow>, price: real, freq: PositiveInt, f: real, interval: real, sum: real)
    requires f == freq as real && interval == 1.0 / f && sum == ConvexitySum(rows, interval)
    ensures Convexity(rows, price, freq) == if price > 0.0 then sum / (price * (f * f)) else 0.0
  {
  }

  lemma {:induction false} ConvexitySumNonNegative(rows: seq<CashFlow>, interval: real)
    requires interval >= 0.0
    requires forall i :: 0 <= i < |rows| ==> rows[i].pv >= 0.0 && rows[i].time >= 0.0
    ensures ConvexitySum(rows, interval) >= 0.0
  {
    if rows != [] {
      ConvexitySumNonNegative(rows[..|rows| - 1], interval);
      var last := rows[|rows| - 1];
      assert last.time * (last.time + interval) >= 0.0;
    }
  }

  /** Convexity is never negative when the present values are not. */
  lemma ConvexityNonNegative(rows: seq<CashFlow>, price: real, freq: PositiveInt)
    requires forall i :: 0 <= i < |rows| ==> rows[i].pv >= 0.0 && rows[i].time >= 0.0
    ensures Convexity(rows, price, freq) >= 0.0
  {
    var f := freq as real;
    ConvexitySumNonNegative(rows, 1.0 / f);
    if price > 0.0 {
      assert price * (f * f) > 0.0;
    }
  }

  // ---------------------------------------------------------------------------
  // Price from yield: payment k discounted by (1 + y / f) ** k.

  function Pow(x: real, k: nat): real {
    if k == 0 then 1.0 else x * Pow(x, k - 1)
  }

  lemma PowStep(x: real, k: nat)
    requires k > 0
    ensures Pow(x, k) == x * Pow(x, k - 1)
  {
  }

  lemma {:induction false} PowNonZero(x: real, k: nat)
    requires x != 0.0
    ensures Pow(x, k) != 0.0
  {
    if k > 0 {
      PowNonZero(x, k - 1);
    }
  }

  /** The per-period growth factor 1 + y / frequency. */
  function Growth(b: Bond, y: real): real {
    1.0 + y / b.Freq() as real
  }

  /** The payments 1, ..., n discounted at growth factor q. */
  function PriceSum(b: Bond, q: real, n: nat): real
    requires q != 0.0
  {
    if n == 0 then 0.0
    else
      PowNonZero(q, n);
      PriceSum(b, q, n - 1) + Payment(b, n) / Pow(q, n)
  }

  /** bond_price_at_ytm: the schedule discounted at yield y, or a division by
      zero when 1 + y / f is 0 and there is at least one payment. */
  function YieldPrice(b: Bond, y: real): (r: Option<real>)
    ensures r.None? <==> b.periods > 0 && Growth(b, y) == 0.0
  {
    if b.periods == 0 then Some(0.0)
    else if Growth(b, y) == 0.0 then None
    else Some(PriceSum(b, Growth(b, y), b.periods))
  }

  /** The coupons up to period n discounted at q, without the principal. */
  function CouponSum(b: Bond, q: real, n: nat): real
    requires q != 0.0
  {
    if n == 0 then 0.0
    else
      PowNonZero(q, n);
      CouponSum(b, q, n - 1) + CouponPayment(b) / Pow(q, n)
  }

  lemma {:induction false} PriceSumSplit(b: Bond, q: real, n: nat)
    requires q != 0.0 && 0 < n == b.periods
    ensures Pow(q, n) != 0.0
    ensures PriceSum(b, q, n) == CouponSum(b, q, n) + b.Face() / Pow(q, n)
  {
    PowNonZero(q, n);
    CouponsOnly(b, q, n - 1);
  }

  lemma {:induction false} CouponsOnly(b: Bond, q: real, n: nat)
    requires q != 0.0 && n < b.periods
    ensures PriceSum(b, q, n) == CouponSum(b, q, n)
  {
    if n > 0 {
      CouponsOnly(b, q, n - 1);
    }
  }

  /** Discounting at the coupon rate: the coupons up to period n plus the face
      value at n are worth exactly the face value. */
  lemma {:induction false} ParTelescopes(b: Bond, n: nat)
    requires Growth(b, b.coupon) != 0.0
    ensures Pow(Growth(b, b.coupon), n) != 0.0
    ensures CouponSum(b, Growth(b, b.coupon), n) + b.Face() / Pow(Growth(b, b.coupon), n) == b.Face()
  {
    var q := Growth(b, b.coupon);
    PowNonZero(q, n);
    if n > 0 {
      ParTelescopes(b, n - 1);
      PowNonZero(q, n - 1);
      var r := b.coupon / b.Freq() as real;
      assert CouponSum(b, q, n) == CouponSum(b, q, n - 1) + CouponPayment(b) / Pow(q, n);
      PowStep(q, n);
      TelescopeStep(b.Face(), r, q, Pow(q, n - 1), Pow(q, n), CouponPayment(b));
    }
  }

  /** One period of the telescoping sum: at growth q = 1 + r, a coupon r F and
      the face value F paid one period later than p are worth F at p. */
  lemma TelescopeStep(face: real, r: real, q: real, p: real, pq: real, coupon: real)
    requires q == 1.0 + r && q != 0.0 && p != 0.0 && pq == q * p && coupon == r * face
    ensures pq != 0.0
    ensures coupon / pq + face / pq == face / p
  {
    assert coupon + face == q * face;
    assert (coupon + face) / pq == face / p;
  }

  /** At the coupon rate a bond prices at par. */
  lemma YieldAtCouponIsPar(b: Bond)
    requires Growth(b, b.coupon) != 0.0
    ensures YieldPrice(b, b.coupon) == Some(if b.periods == 0 then 0.0 else b.Face())
  {
    if b.periods > 0 {
      PriceSumSplit(b, Growth(b, b.coupon), b.periods);
      ParTelescopes(b, b.periods);
    }
  }

  // ---------------------------------------------------------------------------
  // Newton iteration for the yield to maturity.

  const MaxIterations: nat := 100
  const Tolerance: real := 0.000001
  const Epsilon: real := 0.000001
  const FlatDerivative: real := 0.0000000001

  /** How the iteration ended: within tolerance, on a flat derivative, or after
      the iteration cap. */
  datatype Stop = Converged | Flat | Exhausted

  datatype NewtonRun = NewtonRun(ytm: real, stop: Stop, iterations: nat)

  /** The forward-difference slope (P(y + eps) - P(y)) / eps. */
  function Slope(priceAt: real, priceBumped: real): real {
    (priceBumped - priceAt) / Epsilon
  }

  /** The Newton step y - (P(y) - target) / slope. */
  function NewtonStep(y: real, priceAt: real, target: real, slope: real): real
    requires slope != 0.0
  {
    y - (priceAt - target) / slope
  }

  /** calculate_ytm's loop from iteration i at guess y. A division by zero in
      the price function propagates as an error. */
  function Newton(b: Bond, target: real, y: real, i: nat): Result<NewtonRun>
    requires i <= MaxIterations
    decreases MaxIterations - i
  {
    if i == MaxIterations then Ok(NewtonRun(y, Exhausted, i))
    else match YieldPrice(b, y)
      case None => Err(ZeroDivision)
      case Some(priceAt) =>
        if Abs(priceAt - target) < Tolerance then Ok(NewtonRun(y, Converged, i))
        else match YieldPrice(b, y + Epsilon)
          case None => Err(ZeroDivision)
          case Some(bumped) =>
            var slope := Slope(priceAt, bumped);
            if Abs(slope) < FlatDerivative then Ok(NewtonRun(y, Flat, i))
            else Newton(b, target, NewtonStep(y, priceAt, target, slope), i + 1)
  }

  /** calculate_ytm: the iteration started from the coupon rate; its last iterate. */
  function Ytm(b: Bond, price: real): Result<real> {
    match Newton(b, price, b.coupon, 0)
    case Ok(run) => Ok(run.ytm)
    case Err(e) => Err(e)
  }

  /** What a run promises: a converged yield prices within the tolerance, a
      flat stop saw a slope below 1e-10, the cap stops after exactly 100
      iterations, and no run exceeds it; the only failure is a division by
      zero in the price function. */
  lemma {:induction false} NewtonOutcome(b: Bond, target: real, y: real, i: nat)
    requires i <= MaxIterations
    ensures Newton(b, target, y, i).Err? ==> Newton(b, target, y, i).error == ZeroDivision
    ensures Newton(b, target, y, i).Ok? ==>
      var run := Newton(b, target, y, i).value;
      && i <= run.iterations <= MaxIterations
      && (run.stop == Exhausted <==> run.iterations == MaxIterations)
      && (run.stop == Converged ==>
            YieldPrice(b, run.ytm).Some? && Abs(YieldPrice(b, run.ytm).value - target) < Tolerance)
      && (run.stop == Flat ==>
            YieldPrice(b, run.ytm).Some? && YieldPrice(b, run.ytm + Epsilon).Some?
            && Abs(Slope(YieldPrice(b, run.ytm).value, YieldPrice(b, run.ytm + Epsilon).value)) < FlatDerivative)
    decreases MaxIterations - i
  {
    if i < MaxIterations && YieldPrice(b, y).Some? {
      var priceAt := YieldPrice(b, y).value;
      if Abs(priceAt - target) >= Tolerance && YieldPrice(b, y + Epsilon).Some? {
        var slope := Slope(priceAt, YieldPrice(b, y + Epsilon).value);
        if Abs(slope) >= FlatDerivative {
          NewtonOutcome(b, target, NewtonStep(y, priceAt, target, slope), i + 1);
        }
      }
    }
  }

  /** A bond priced within the tolerance of par yields exactly its coupon rate:
      the first guess already converges. */
  lemma ParBondYieldsCoupon(b: Bond, price: real)
    requires b.periods > 0 && Growth(b, b.coupon) != 0.0
    requires Abs(b.Face() - price) < Tolerance
    ensures Ytm(b, price) == Ok(b.coupon)
  {
    YieldAtCouponIsPar(b);
  }

  // ---------------------------------------------------------------------------
  // Measures built on the yield.

  datatype DurationMetrics = DurationMetrics(macaulay: real, modified: real, dv01: real)

  /** calculate_duration for a given price: Macaulay, Macaulay / (1 + ytm / f),
      and modified * price / 10000; a division by zero when 1 + ytm / f is 0. */
  function Duration(rows: seq<CashFlow>, b: Bond, price: real): (r: Result<DurationMetrics>)
    ensures r.Ok? <==> Ytm(b, price).Ok? && Growth(b, Ytm(b, price).value) != 0.0
    ensures r.Ok? ==> r.value.macaulay == Macaulay(rows)
    ensures r.Ok? ==> r.value.modified == ModifiedDuration(r.value.macaulay, Growth(b, Ytm(b, price).value))
    ensures r.Ok? ==> r.value.dv01 == Dv01(r.value.modified, price)
    ensures r.Err? ==> r.error == ZeroDivision
  {
    var macaulay := Macaulay(rows);
    match Ytm(b, price)
    case Err(e) =>
      NewtonOutcome(b, price, b.coupon, 0);
      Err(e)
    case Ok(ytm) =>
      if Growth(b, ytm) == 0.0 then Err(ZeroDivision)
      else
        var modified := ModifiedDuration(macaulay, Growth(b, ytm));
        Ok(DurationMetrics(macaulay, modified, Dv01(modified, price)))
  }

  function ModifiedDuration(macaulay: real, growth: real): (modified: real)
    requires growth != 0.0
    ensures modified * growth == macaulay
  {
    macaulay / growth
  }

  /** The dollar value of one basis point: modified duration * price / 10000. */
  function Dv01(modified: real, price: real): (dv01: real)
    ensures dv01 * 10000.0 == modified * price
  {
    modified * price / 10000.0
  }

  /** The Macaulay duration in terms of the two running sums. */
  lemma MacaulayFromSums(rows: seq<CashFlow>, weighted: real, total: real)
    requires weighted == WeightedPv(rows) && total == TotalPv(rows)
    ensures Macaulay(rows) == if total > 0.0 then weighted / total else 0.0
  {
  }

  /** The two ways calculate_duration fails: the yield fails, or 1 + ytm / f is 0. */
  lemma DurationFails(rows: seq<CashFlow>, b: Bond, price: real)
    ensures Ytm(b, price).Err? ==> Duration(rows, b, price) == Err(Ytm(b, price).error)
    ensures Ytm(b, price).Ok? && 1.0 + Ytm(b, price).value / b.Freq() as real == 0.0 ==>
      Duration(rows, b, price) == Err(ZeroDivision)
  {
  }

  /** The measures in terms of values already computed. */
  lemma DurationSucceeds(rows: seq<CashFlow>, b: Bond, price: real, ytm: real, macaulay: real, growth: real, modified: real)
    requires Ytm(b, price) == Ok(ytm) && macaulay == Macaulay(rows)
    requires growth == 1.0 + ytm / b.Freq() as real && growth != 0.0 && modified == ModifiedDuration(macaulay, growth)
    ensures Duration(rows, b, price) == Ok(DurationMetrics(macaulay, modified, Dv01(modified, price)))
  {
  }

  /** calculate_credit_spread: (ytm - r(maturity)) in basis points. */
  function CreditSpread(b: Bond, rf: Dict, price: real): (r: Result<real>)
    requires IsCurve(rf)
    ensures r.Ok? <==> Ytm(b, price).Ok?
    ensures r.Ok? ==> Rate(rf, b.Years()) + r.value / 10000.0 == Ytm(b, price).value
  {
    match Ytm(b, price)
    case Err(e) => Err(e)
    case Ok(ytm) => Ok((ytm - Rate(rf, b.Years())) * 10000.0)
  }

  // ---------------------------------------------------------------------------
  // The pricer object.

  class SyntheticPricer {
    /** The engine, shared: the pricer sees its current hazard curve. */
    const engine: HazardRateEngine
    const bondData: Bond
    const rfCurve: Dict
    const faceValue: real

    ghost predicate Valid()
      reads this, engine
    {
      IsCurve(engine.hazardRates) && IsCurve(rfCurve) && faceValue == bondData.Face()
    }

    /** The inputs of the valuation: the engine's exp and hazard curve and the
        treasury curve. */
    function MarketView(): (m: Market)
      reads this, engine
      ensures m.exp == engine.exp && m.hazard == engine.hazardRates && m.riskFree == rfCurve
    {
      Market(engine.exp, engine.hazardRates, rfCurve)
    }

    constructor (engine: HazardRateEngine, md: MarketData)
      ensures this.engine == engine && bondData == md.bond && rfCurve == md.treasuryCurve
      ensures faceValue == md.bond.Face()
    {
      this.engine := engine;
      bondData := md.bond;
      rfCurve := md.treasuryCurve;
      faceValue := md.bond.Face();
    }

    /** _calculate_accrued_interest: valuation is taken at a coupon date. */
    function AccruedInterest(): (a: real)
      ensures a == 0.0
    {
      0.0
    }

    /** One pass of the schedule loop body: time, payment, rate, discount
        factor, survival probability and present value of payment k. */
    method CashFlowAt(k: nat) returns (row: CashFlow)
      requires Valid()
      ensures row == Row(MarketView(), bondData, k)
    {
      var t := PaymentTime(bondData, k);
      var couponPayment := CouponPayment(bondData);
      var principal := if k == bondData.periods then faceValue else 0.0;
      var payment := couponPayment + principal;
      var rfRate := RiskFreeRate(rfCurve, t);
      var exponent := -rfRate * t;
      assert exponent == DiscountExponent(rfCurve, t);
      var discountFactor := engine.exp(exponent);
      var survivalProb := engine.SurvivalProb(t);
      var pv := PresentValue(payment, survivalProb, discountFactor);
      row := CashFlow(t, payment, couponPayment, principal, rfRate, discountFactor, survivalProb, 1.0 - survivalProb, pv);
    }

    /** calculate_synthetic_price: the cash-flow table and the sum of its
        present values; accrued interest, when asked for, adds nothing. */
    method CalculateSyntheticPrice(includeAccrued: bool) returns (price: real, rows: seq<CashFlow>)
      requires Valid()
      ensures rows == Schedule(MarketView(), bondData, bondData.periods)
      ensures price == TotalPv(rows)
    {
      ghost var m := MarketView();
      var n := bondData.periods;
      rows := [];
      price := 0.0;
      var k := 1;
      while k <= n
        invariant 1 <= k <= n + 1
        invariant MarketView() == m
        invariant rows == Schedule(m, bondData, k - 1)
        invariant price == TotalPv(rows)
      {
        var row := CashFlowAt(k);
        ScheduleExtends(m, bondData, k, rows, row);
        SumsExtend(rows, row, 0.0);
        price := price + row.pv;
        rows := rows + [row];
        k := k + 1;
      }
      if includeAccrued {
        var accrued := AccruedInterest();
        price := price + accrued;
      }
    }

    /** bond_price_at_ytm: the loop over the payments. */
    method BondPriceAtYtm(ytm: real) returns (r: Option<real>)
      ensures r == YieldPrice(bondData, ytm)
    {
      var n := bondData.periods;
      var q := 1.0 + ytm / bondData.Freq() as real;
      var pv := 0.0;
      var k := 1;
      while k <= n
        invariant 1 <= k <= n + 1
        invariant q == Growth(bondData, ytm)
        invariant k > 1 ==> q != 0.0 && pv == PriceSum(bondData, q, k - 1)
        invariant k == 1 ==> pv == 0.0
      {
        var discount := Pow(q, k);
        if discount == 0.0 {
          assert q == 0.0 by {
            if q != 0.0 {
              PowNonZero(q, k);
            }
          }
          return None;
        }
        assert q != 0.0;
        pv := pv + Payment(bondData, k) / discount;
        k := k + 1;
      }
      return Some(pv);
    }

    /** calculate_ytm: Newton-Raphson from the coupon rate, at most 100 steps,
        returning the last iterate when it does not converge. */
    method CalculateYtm(price: real) returns (r: Result<real>)
      ensures r == Ytm(bondData, price)
    {
      var ytmGuess := bondData.coupon;
      var i := 0;
      while i < MaxIterations
        invariant 0 <= i <= MaxIterations
        invariant Newton(bondData, price, ytmGuess, i) == Newton(bondData, price, bondData.coupon, 0)
      {
        var priceCalc := BondPriceAtYtm(ytmGuess);
        if priceCalc.None? {
          return Err(ZeroDivision);
        }
        if Abs(priceCalc.value - price) < Tolerance {
          return Ok(ytmGuess);
        }
        var bumped := BondPriceAtYtm(ytmGuess + Epsilon);
        if bumped.None? {
          return Err(ZeroDivision);
        }
        var derivative := Slope(priceCalc.value, bumped.value);
        if Abs(derivative) < FlatDerivative {
          return Ok(ytmGuess);
        }
        ytmGuess := NewtonStep(ytmGuess, priceCalc.value, price, derivative);
        i := i + 1;
      }
      return Ok(ytmGuess);
    }

    /** The first half of calculate_duration: the loop summing t * PV and PV
        over the schedule, and their ratio (0 when the PV sum is not positive). */
    method MacaulayDuration() returns (macaulay: real)
      requires Valid()
      ensures macaulay == Macaulay(Schedule(MarketView(), bondData, bondData.periods))
    {
      ghost var m := MarketView();
      ghost var done: seq<CashFlow> := [];
      var n := bondData.periods;
      var weightedPvSum := 0.0;
      var pvSum := 0.0;
      var k := 1;
      while k <= n
        invariant 1 <= k <= n + 1
        invariant MarketView() == m
        invariant done == Schedule(m, bondData, k - 1)
        invariant weightedPvSum == WeightedPv(done)
        invariant pvSum == TotalPv(done)
      {
        var row := CashFlowAt(k);
        ScheduleExtends(m, bondData, k, done, row);
        SumsExtend(done, row, 0.0);
        weightedPvSum := weightedPvSum + WeightedTerm(row);
        pvSum := pvSum + row.pv;
        done := done + [row];
        k := k + 1;
      }
      MacaulayFromSums(done, weightedPvSum, pvSum);
      macaulay := if pvSum > 0.0 then weightedPvSum / pvSum else 0.0;
    }

    /** calculate_duration: the synthetic price when none is given, the
        Macaulay duration, then the yield-based measures. */
    method CalculateDuration(price: Option<real>) returns (r: Result<DurationMetrics>)
      requires Valid()
      ensures r == Duration(Schedule(MarketView(), bondData, bondData.periods), bondData,
                            if price.Some? then price.value else TotalPv(Schedule(MarketView(), bondData, bondData.periods)))
    {
      var p: real;
      if price.None? {
        var rows;
        p, rows := CalculateSyntheticPrice(false);
      } else {
        p := price.value;
      }
      ghost var schedule := Schedule(MarketView(), bondData, bondData.periods);
      var macaulay := MacaulayDuration();
      var ytm := CalculateYtm(p);
      DurationFails(schedule, bondData, p);
      if ytm.Err? {
        return Err(ytm.error);
      }
      var growth := 1.0 + ytm.value / bondData.Freq() as real;
      if growth == 0.0 {
        return Err(ZeroDivision);
      }
      var modified := macaulay / growth;
      DurationSucceeds(schedule, bondData, p, ytm.value, macaulay, growth, modified);
      return Ok(DurationMetrics(macaulay, modified, Dv01(modified, p)));
    }

    /** calculate_convexity: the synthetic price when none is given, then the
        sum of t (t + 1/f) PV over price * f^2. */
    method CalculateConvexity(price: Option<real>) returns (c: real)
      requires Valid()
      ensures c == Convexity(Schedule(MarketView(), bondData, bondData.periods),
                             if price.Some? then price.value else TotalPv(Schedule(MarketView(), bondData, bondData.periods)),
                             bondData.Freq())
    {
      var p: real;
      if price.None? {
        var rows;
        p, rows := CalculateSyntheticPrice(false);
      } else {
        p := price.value;
      }
      ghost var m := MarketView();
      ghost var done: seq<CashFlow> := [];
      var f := bondData.Freq() as real;
      var paymentInterval := 1.0 / f;
      var n := bondData.periods;
      var convexitySum := 0.0;
      var k := 1;
      while k <= n
        invariant 1 <= k <= n + 1
        invariant MarketView() == m
        invariant done == Schedule(m, bondData, k - 1)
        invariant convexitySum == ConvexitySum(done, paymentInterval)
      {
        var row := CashFlowAt(k);
        ScheduleExtends(m, bondData, k, done, row);
        SumsExtend(done, row, paymentInterval);
        convexitySum := convexitySum + ConvexityTerm(row, paymentInterval);
        done := done + [row];
        k := k + 1;
      }
      ConvexityFromSum(done, p, bondData.Freq(), f, paymentInterval, convexitySum);
      c := if p > 0.0 then convexitySum / (p * (f * f)) else 0.0;
    }

    /** calculate_credit_spread: the yield at the market price over the
        risk-free rate at maturity, in basis points. */
    method CalculateCreditSpread(marketPrice: real) returns (r: Result<real>)
      requires Valid()
      ensures r == CreditSpread(bondData, rfCurve, marketPrice)
    {
      var ytm := CalculateYtm(marketPrice);
      if ytm.Err? {
        return Err(ytm.error);
      }
      var tenor := bondData.Years();
      var rfRate := RiskFreeRate(rfCurve, tenor);
      return Ok((ytm.value - rfRate) * 10000.0);
    }
  }
}

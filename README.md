# credit-analytics core in Dafny

This project models the calibration and valuation core of credit-analytics, a
Python toolkit for CDS-bond basis analysis. It covers four parts:

- **Hazard-rate engine** (`HazardRate`). It validates the market snapshot and
  bootstraps a piecewise-constant hazard curve from CDS quotes.
  - The first tenor gets the credit triangle spread / (1 - R).
  - Each later tenor gets the answer of an `fsolve` oracle, clipped into
    [1e-6, 1]. When the solver raises, it gets the unclipped triangle.
  - It answers survival and default probabilities, forward hazard rates and a
    curve summary.
- **Synthetic pricer** (`Pricing`). It discounts the coupon schedule with the
  treasury curve (`RateCurve`) and weights each payment by the engine's
  survival probability. From that schedule it derives:
  - the Macaulay and modified duration and DV01, and the convexity;
  - the Newton-Raphson yield to maturity;
  - the credit spread over the treasury curve.
- **Basis analyser** (`BasisAnalysis`). It computes:
  - the Z-spread, found by a bracketing root finder, with a yield-minus-rate
    fallback when the finder refuses the bracket;
  - the closest CDS tenor, the basis and the five-band trade signal;
  - the asset-swap spread, and the full analysis record.

  It also runs the stress test, which overwrites every tenor of the shared CDS
  curve in place and then rebinds the market data to a saved copy.
- **Data provider** (`DataProvider`). It models `validate_data`, the
  constructor's mode check and the fixed dummy snapshot.

Arithmetic is exact (`real`). `exp`, `ln`, `fsolve` and `brentq` are parameters
of arrow type. The properties they are trusted to have are written as ghost
predicates and required where used:
- `IsExp`: exp(0) = 1, exp is positive and strictly increasing.
- `IsLogOf`: ln inverts exp on the positive reals.
- `IsBrentq`: the finder refuses exactly the brackets whose ends have the same
  sign, and any root it returns lies inside the bracket.

Objects that the source shares and updates in place are classes:
- `SpreadCurve`: the CDS dict.
- `MarketData`: the snapshot dict, whose `cds_curve` entry is rebound.
- `HazardRateEngine`, `SyntheticPricer` and `BasisAnalyzer`.

The engine holds the same `SpreadCurve` object as the market data
(hazard_rate.py:55), so the aliasing in the stress test is part of the model.

Where the code and its comments differ, the model follows the code:
- **Stress test.** The comments "Temporarily shock CDS curve" and "Restore
  original curve" in the stress test of basis_analysis.py describe a shock
  that is undone. The code instead leaves the engine's reference holding
  base + the first shock (`BasisAnalyzer.StressTestBasis`). The shock writes
  into the object the engine shares, and the restore rebinds
  `market_data['cds_curve']` to a fresh copy. Later shocks therefore write
  into copies the engine does not see.
- **Shocked analyses cannot fail.** Once the base analysis succeeds, every
  shocked analysis succeeds (`BasisAnalysis.ShockedAnalysis`).
- **CDS validation.** The engine rejects a CDS curve only when it is not a dict
  or is empty. The sign of the spreads is not checked.
- **Forward hazard cap.** `get_forward_hazard_rate` returns `MAX_HAZARD_RATE`
  when S(t2) <= 0. With an exact, positive exp this branch is unreachable; the
  model keeps it.

## Model

| member | source | states |
|---|---|---|
| RateCurve.RiskFreeRate | src/hazard_rate.py:132-156 | the flat-ends checks and the bracket loop return Rate(c, t), the rate on which the interpolation lemmas are proved |
| RateCurve.LerpBetween | src/hazard_rate.py:152-154 | the interpolated rate lies between the two bracketing rates, and equals r1 at t1 and r2 at t2 |
| RateCurve.ScanFindsBracket | src/hazard_rate.py:150-154 | the scan that takes the first bracketing pair gives the interpolation on the pair that contains t; at a shared node, both neighbours agree |
| RateCurve.RateInterpolates | src/hazard_rate.py:149-154 | strictly inside the tenor range, the rate is the linear interpolation on the bracketing pair, between its two rates |
| RateCurve.RateFlatOutside | src/pricing.py:53-56 | at or below the first tenor the rate is that tenor's rate; at or above the last tenor, the last tenor's rate |
| RateCurve.RateAtNode | src/pricing.py:49-65 | the curve passes through its quotes: at every quoted tenor the rate is the quoted rate |
| Common.Put | src/hazard_rate.py:173 | a dict assignment maps k to v, appends a new key to the insertion order and keeps an existing key's place |
| Common.Sorted | src/hazard_rate.py:101 | sorted(keys) is strictly increasing and holds exactly the dict's keys |
| Common.Clip | src/hazard_rate.py:268-272 | np.clip lands in [lo, hi]: values below lo become lo, values above hi become hi, values inside are unchanged |
| DataProvider.ValidateData | src/data_provider.py:259-292 | True exactly when the three top-level keys and the four bond keys exist, 0 < price < 200 and 0 <= recovery <= 1 |
| DataProvider.ParseMode | src/data_provider.py:53-56 | a mode is accepted exactly when it is one of dummy, live or cached, and parses to the mode of that name; anything else is an InvalidMode error |
| DataProvider.ModeRoundTrip | src/data_provider.py:31 | every mode's name is accepted and parses back to that mode |
| DataProvider.SpreadCurve.Copy | src/basis_analysis.py:297 | dict.copy() gives a new object with the same entries |
| DataProvider.SpreadCurve.Set | src/basis_analysis.py:300 | overwriting an existing tenor changes only that tenor's value and keeps the insertion order |
| DataProvider.DummyCdsValid | src/data_provider.py:112-118 | the dummy CDS curve is a well-formed dict |
| DataProvider.DummyTreasuryValid | src/data_provider.py:119-127 | the dummy treasury curve is a well-formed dict |
| DataProvider.DummySnapshotValid | src/data_provider.py:101-133 | the dummy snapshot passes validate_data, and its bond matures in 7 years |
| HazardRate.ValidateMarketData | src/hazard_rate.py:71-83 | passes exactly when the keys exist, the CDS curve is a non-empty dict and recovery is in [0, 1]; otherwise it raises the first failing check's error: missing keys, then a non-dict or empty CDS curve, then a missing recovery, then a recovery outside [0, 1] |
| HazardRate.ValidationsAgree | src/hazard_rate.py:77-78 | on a snapshot validate_data accepts, the engine's check passes exactly when the CDS curve is a non-empty dict |
| HazardRate.RecoveryOneAccepted | src/hazard_rate.py:80 | a snapshot with recovery exactly 1 passes the engine's check, although the strict check refuses it |
| HazardRate.ValidateMarketDataStrict | src/hazard_rate.py:80-83 | the corrected check passes exactly when recovery is in [0, 1); it reports the same error as the source's check whenever that check fails |
| HazardRate.StrictValidationMatchesCreate | src/hazard_rate.py:52-69 | the strict check accepts exactly the market data from which the engine can be built |
| HazardRate.AccumulateHazard | src/hazard_rate.py:100-118 | the loop over the sorted tenors, with cumulative_hazard and prev_t, computes the cumulative hazard H(t) |
| HazardRate.AccumulateIsSegmentSum | src/hazard_rate.py:104-116 | H(t) is the sum of lambda_k times the part of each segment (T_{k-1}, T_k] below t, plus the last lambda times the time past the last tenor |
| HazardRate.SegmentSumMonotone | src/hazard_rate.py:104-112 | with non-negative rates over increasing non-negative tenors, the sum of segment contributions is non-negative and non-decreasing in t |
| HazardRate.HazardMonotone | src/hazard_rate.py:100-118 | with non-negative rates and positive tenors, H is non-negative and non-decreasing in t |
| HazardRate.SurvivalBounds | src/hazard_rate.py:97-118 | survival_prob is exactly 1 for t <= 0 and lies in (0, 1] everywhere |
| HazardRate.SurvivalNonIncreasing | src/hazard_rate.py:85-118 | survival never increases with the horizon |
| HazardRate.SurvivalPositive | src/hazard_rate.py:108-118 | survival is positive on every curve |
| HazardRate.DefaultProbBounds | src/hazard_rate.py:120-130 | default_prob is 0 up to time 0, and lies in [0, 1) non-decreasingly in t |
| HazardRate.ForwardHazard | src/hazard_rate.py:292-293 | fails with ForwardTimesOutOfOrder exactly when t2 <= t1 |
| HazardRate.ForwardCarries | src/hazard_rate.py:301 | the rate -ln(s2/s1)/(t2-t1) carries s1 to s2: s1 * exp(-f (t2 - t1)) = s2 |
| HazardRate.ForwardNonNegative | src/hazard_rate.py:301 | from a higher survival level to a lower one, the rate is non-negative |
| HazardRate.ForwardHazardValue | src/hazard_rate.py:295-301 | a successful forward rate has t1 < t2, both survival levels positive, and equals -ln(S(t2)/S(t1))/(t2-t1) |
| HazardRate.ForwardHazardMeaning | src/hazard_rate.py:281-301 | the forward rate is the constant hazard that carries S(t1) to S(t2) |
| HazardRate.ForwardHazardNonNegative | src/hazard_rate.py:281-301 | on a curve with non-negative rates and positive tenors, every forward rate is non-negative |
| HazardRate.Objective.Trial | src/hazard_rate.py:216 | the objective's trial curve holds the candidate rate at the tenor, keeps every earlier node, and has no other keys |
| HazardRate.Setup.ObjectiveFor | src/hazard_rate.py:209-241 | the closure passed to fsolve captures the engine's exp, discount factors, recovery and step, the curve so far, and the tenor and spread |
| HazardRate.SolvedRate | src/hazard_rate.py:243-279 | when fsolve returns, its answer clipped into [1e-6, 1]; when fsolve raises, the unclipped triangle spread / (1 - R) |
| HazardRate.CurveAppend | src/hazard_rate.py:179 | setting a new tenor appends it to the curve built so far |
| HazardRate.CurveStep | src/hazard_rate.py:167-181 | before step i the curve holds exactly the first i tenors with their rates, the previous node included; step i adds tenor i |
| HazardRate.RatesPrefix | src/hazard_rate.py:167-185 | later steps of the bootstrap never revise an earlier node |
| HazardRate.RatesFinal | src/hazard_rate.py:167-185 | node j of the finished curve is what step j computed; it is the rate step j + 1 started from |
| HazardRate.Spreads | src/hazard_rate.py:164-168 | the quotes in increasing tenor order, converted from bps to decimals |
| HazardRate.FinalNodes | src/hazard_rate.py:167-181 | node 0 holds the credit triangle; node j > 0 holds the solver's clipped answer, started from node j - 1's rate |
| HazardRate.BootstrapKeys | src/hazard_rate.py:164-185 | after the bootstrap, the curve's keys are exactly the CDS tenors |
| HazardRate.BootstrapFirst | src/hazard_rate.py:170-173 | the smallest tenor gets exactly (bps / 10000) / (1 - R), without clipping |
| HazardRate.BootstrapLater | src/hazard_rate.py:177-181 | every later tenor gets _solve_for_hazard_rate's answer for that tenor, started from the previous tenor's rate on the curve built so far |
| HazardRate.RatesNonNegative | src/hazard_rate.py:167-181 | with non-negative quotes and recovery in [0, 1), every bootstrapped rate is non-negative |
| HazardRate.CalibrateNonNegative | src/hazard_rate.py:158-187 | the bootstrapped curve has non-negative rates under the same conditions |
| HazardRate.Max | src/hazard_rate.py:318 | max(values) is one of the values and bounds all of them from above |
| HazardRate.Min | src/hazard_rate.py:319 | min(values) is one of the values and bounds all of them from below |
| HazardRate.MeanWithin | src/hazard_rate.py:317 | the mean of values in [lo, hi] lies in [lo, hi] |
| HazardRate.Values | src/hazard_rate.py:317 | dict.values() lists each key's value in insertion order |
| HazardRate.HazardRateEngine.Init | src/hazard_rate.py:54-61 | the engine shares the market data's CDS curve object, takes recovery from the bond and starts with an empty hazard curve |
| HazardRate.HazardRateEngine.Create | src/hazard_rate.py:35-69 | construction raises the validation error when validation fails, and ZeroDivision when R = 1; otherwise it yields an engine that holds the given solver, integration step, iteration cap and bond, and whose curve is the bootstrap of the shared CDS quotes under them |
| HazardRate.HazardRateEngine.Bootstrap | src/hazard_rate.py:158-187 | the loop leaves the bootstrapped curve of the quotes, or fails with ZeroDivision exactly when R = 1 |
| HazardRate.HazardRateEngine.SolveForHazardRate | src/hazard_rate.py:189-279 | returns SolvedRate seeded with the previous tenor's rate: a rate in [1e-6, 1], or the triangle fallback |
| HazardRate.HazardRateEngine.SurvivalProb | src/hazard_rate.py:85-118 | returns exp(-H(t)) for t > 0 and 1 otherwise, on the engine's curve |
| HazardRate.HazardRateEngine.DefaultProb | src/hazard_rate.py:120-130 | returns 1 minus the survival probability |
| HazardRate.HazardRateEngine.GetCurveSummary | src/hazard_rate.py:303-320 | gives per-tenor rates and probabilities in tenor order, and min <= mean <= max, with min and max attained and bounding every rate |
| HazardRate.EngineSurvivalProper | src/hazard_rate.py:164-185 | a built engine with non-negative quotes at positive tenors and R in [0, 1) has exactly the CDS tenors as keys, and a survival curve that never increases and is at most 1 |
| Pricing.Schedule | src/pricing.py:85-97 | the schedule has one row per payment k = 1..n, in order, each the row of payment k |
| Pricing.ScheduleExtends | src/pricing.py:110-120 | appending row k to the first k - 1 rows gives the first k |
| Pricing.SumsExtend | src/pricing.py:108 | each running sum (PV, t * PV, t (t + 1/f) PV) grows by exactly the new row's term |
| Pricing.PrincipalOnce | src/pricing.py:94-97 | every payment is coupon (coupon / f) * face plus principal; the face appears on the last payment only, so the principals sum to the face value once |
| Pricing.PaymentNonNegative | src/pricing.py:88-97 | with non-negative coupon and face value, every payment is non-negative |
| Pricing.RowBelowRiskless | src/pricing.py:99-107 | a row's present value lies between 0 and the payment discounted without credit |
| Pricing.PvWithin | src/pricing.py:107 | payment * survival * df lies in [0, payment * df] for a survival probability |
| Pricing.PvBetween | src/pricing.py:91-108 | the total PV lies between 0 and the riskless PV when each row does |
| Pricing.SyntheticBelowRiskless | src/pricing.py:67-132 | the synthetic price is non-negative and never above the treasury-only price |
| Pricing.WeightedBetween | src/pricing.py:179 | the sum of t * PV lies between lo and hi times the PV sum |
| Pricing.MacaulayBetween | src/pricing.py:182 | with a positive PV sum, the Macaulay duration lies within the payment times |
| Pricing.ScheduleTimes | src/pricing.py:85-86 | payment times run from 1/f to the maturity, and the last is the maturity |
| Pricing.PaymentTimeMonotone | src/pricing.py:86 | payment times are non-negative and increase with k |
| Pricing.DurationWithinSchedule | src/pricing.py:170-182 | the synthetic bond's Macaulay duration lies between its first payment time and its maturity |
| Pricing.ConvexityFromSum | src/pricing.py:264-277 | convexity is the running sum over price * f^2 when the price is positive, 0 otherwise |
| Pricing.ConvexitySumNonNegative | src/pricing.py:264-275 | the convexity sum is non-negative when PVs and times are |
| Pricing.ConvexityNonNegative | src/pricing.py:277 | convexity is never negative when the PVs are not |
| Pricing.YieldPrice | src/pricing.py:212-218 | bond_price_at_ytm fails exactly when there is a payment and 1 + y/f = 0 |
| Pricing.PriceSumSplit | src/pricing.py:214-217 | the price at yield y is the discounted coupons plus the face discounted over all periods |
| Pricing.CouponsOnly | src/pricing.py:214-217 | before the last period only coupons are paid |
| Pricing.ParTelescopes | src/pricing.py:212-218 | discounted at the coupon rate, the coupons plus the discounted face telescope to the face value |
| Pricing.YieldAtCouponIsPar | src/pricing.py:212-221 | at the coupon rate (the initial guess) the bond prices exactly at par |
| Pricing.NewtonOutcome | src/pricing.py:220-241 | the loop stops after at most 100 iterations; it stops at 100 exactly when it runs out of iterations. A converged yield prices within 1e-6 of the target, a flat stop saw a slope below 1e-10, and the only failure is a division by zero |
| Pricing.ParBondYieldsCoupon | src/pricing.py:221-229 | a price within 1e-6 of par yields exactly the coupon rate |
| Pricing.Duration | src/pricing.py:182-192 | succeeds exactly when the yield succeeds and 1 + ytm/f is not 0; Macaulay is the weighted mean time, modified * (1 + ytm/f) = Macaulay, and dv01 * 10000 = modified * price |
| Pricing.ModifiedDuration | src/pricing.py:186 | modified duration times the growth factor is the Macaulay duration |
| Pricing.Dv01 | src/pricing.py:191 | dv01 * 10000 = modified duration * price |
| Pricing.MacaulayFromSums | src/pricing.py:182 | Macaulay is weighted_pv_sum / pv_sum when pv_sum > 0, else 0 |
| Pricing.DurationFails | src/pricing.py:185-186 | duration fails with the yield's error, or with ZeroDivision when 1 + ytm/f = 0 |
| Pricing.DurationSucceeds | src/pricing.py:184-192 | otherwise it returns the three measures built from the computed values |
| Pricing.CreditSpread | src/pricing.py:291-299 | succeeds exactly when the yield does, and the rate at maturity plus spread / 10000 is the yield |
| Pricing.SyntheticPricer.constructor | src/pricing.py:31-47 | the pricer shares the engine and takes the bond, the treasury curve and the face value (default 100) |
| Pricing.SyntheticPricer.MarketView | src/pricing.py:39-41 | the valuation reads the engine's current hazard curve and exp, and the treasury curve |
| Pricing.SyntheticPricer.AccruedInterest | src/pricing.py:134-143 | accrued interest is always 0 |
| Pricing.SyntheticPricer.CashFlowAt | src/pricing.py:93-120 | one loop pass builds exactly row k of the schedule |
| Pricing.SyntheticPricer.CalculateSyntheticPrice | src/pricing.py:67-132 | the table is the schedule and the price is the sum of its PVs, with or without accrued interest |
| Pricing.SyntheticPricer.BondPriceAtYtm | src/pricing.py:212-218 | the loop computes YieldPrice |
| Pricing.SyntheticPricer.CalculateYtm | src/pricing.py:194-241 | the Newton loop returns the yield described by NewtonOutcome |
| Pricing.SyntheticPricer.MacaulayDuration | src/pricing.py:167-182 | the accumulating loop gives the Macaulay duration of the schedule |
| Pricing.SyntheticPricer.CalculateDuration | src/pricing.py:145-192 | gives the duration measures at the given price, or at the synthetic price when none is given |
| Pricing.SyntheticPricer.CalculateConvexity | src/pricing.py:243-279 | gives the schedule's convexity at the given price, or at the synthetic price when none is given |
| Pricing.SyntheticPricer.CalculateCreditSpread | src/pricing.py:281-299 | gives the credit spread at the market price |
| BasisAnalysis.ZSpread | src/basis_analysis.py:42-101 | a root of the finder is returned. When the finder refuses the bracket, the result is the credit spread / 10000, and it succeeds exactly when that spread does. When the finder does not converge, the result is the RuntimeError (RootNotConverged). The only errors are non-convergence and division by zero |
| BasisAnalysis.SpreadExponentFalls | src/basis_analysis.py:79-80 | a larger spread lowers the discount exponent |
| BasisAnalysis.SpreadTermFalls | src/basis_analysis.py:80 | a larger spread never raises a discounted cash flow |
| BasisAnalysis.PriceWithSpreadFalls | src/basis_analysis.py:68-82 | price_with_spread is non-increasing in z |
| BasisAnalysis.PriceWithSpreadAtZero | src/basis_analysis.py:68-82 | at z = 0 the Z-spread price is the pricer's treasury-only price of the same schedule |
| BasisAnalysis.RowAtZeroSpread | src/basis_analysis.py:76-80 | each cash flow discounted at z = 0 is the pricer's riskless value of that row |
| BasisAnalysis.ZSpreadFallsBack | src/basis_analysis.py:88-101 | the fallback is taken exactly when the price lies outside [P(0.20), P(-0.10)]; inside, the Z-spread is in [-0.10, 0.20] or the finder did not converge |
| BasisAnalysis.ClosestIndex | src/basis_analysis.py:150-151 | min by distance to maturity: no tenor is closer, and every earlier tenor is strictly farther (first wins ties) |
| BasisAnalysis.ClosestUnique | src/basis_analysis.py:151 | that index is the only one with both properties |
| BasisAnalysis.ReferenceTenor | src/basis_analysis.py:146-151 | a given tenor is used as is; otherwise the closest CDS tenor, which is missing only for an empty curve |
| BasisAnalysis.CdsSpreadAt | src/basis_analysis.py:153 | the quoted spread at the tenor, or 0 when the tenor is not quoted |
| BasisAnalysis.Classify | src/basis_analysis.py:159-173 | exactly one of the five signals, by the bands < -20, [-20, 0), > 20, (0, 20] and = 0 |
| BasisAnalysis.ClassifyMonotone | src/basis_analysis.py:159-173 | a larger basis never gives a more negative signal |
| BasisAnalysis.AswFormula | src/basis_analysis.py:126-129 | the spread recovers the price gap: (s/10000 + swap - coupon) * modified * par = par - price |
| BasisAnalysis.AswAgainstPar | src/basis_analysis.py:126-127 | a bond below par pays more than coupon - swap, and one at par pays exactly that |
| BasisAnalysis.AssetSwapSpread | src/basis_analysis.py:103-129 | succeeds exactly when the duration at the market price succeeds with non-zero modified duration and par; the result then recovers the price gap at the maturity's treasury rate |
| BasisAnalysis.AnalyzeBasis | src/basis_analysis.py:131-198 | fails with the Z-spread's error, then NoTenors, then the asset-swap error. On success: basis + z = CDS spread, the signal classifies the basis, and price difference + synthetic price = market price |
| BasisAnalysis.ShockedAnalysis | src/basis_analysis.py:299-303 | re-analysing a curve flattened at a level succeeds, keeps the base Z-spread and quotes the level |
| BasisAnalysis.ShockRows | src/basis_analysis.py:295-311 | one row per shock, in the order given |
| BasisAnalysis.StressRowsMeaning | src/basis_analysis.py:305-311 | every row keeps the base Z-spread, quotes base + shock, and has basis = base basis + shock |
| BasisAnalysis.ShockCurve | src/basis_analysis.py:299-300 | in place, every tenor of the curve holds the level, and keys and order are unchanged |
| BasisAnalysis.BasisAnalyzer.constructor | src/basis_analysis.py:29-38 | the analyser shares the market data and the pricer it is given |
| BasisAnalysis.BasisAnalyzer.ApplyShock | src/basis_analysis.py:296-314 | one pass flattens the current curve object in place, rebinds market data to a fresh copy of the pre-shock entries, and yields the shock's row |
| BasisAnalysis.BasisAnalyzer.ApplyShocks | src/basis_analysis.py:295-314 | the loop yields one row per shock, and the entries end as before. Only the first pass touches the original object, which is left flattened at base + first shock |
| BasisAnalysis.BasisAnalyzer.StressTestBasis | src/basis_analysis.py:275-316 | with default shocks [-50, -25, 0, 25, 50, 100]: on a failing base analysis nothing changes. Otherwise the rows are ShockRows, market data ends with the original entries, and the engine's aliased dict holds base + first shock |

## Left out

- Floating point. Values are exact rationals, and numpy's inf/NaN results are
  modelled as a ZeroDivision error: a zero growth factor in the yield price, a
  zero modified duration, a zero par value. Python's own ZeroDivisionError on
  1 - R = 0 is modelled the same way.
- `np.arange` drift and `np.isclose`. The schedule has an integer number of
  periods, and years_to_maturity = periods / frequency.
- HazardRate.Objective: the premium and protection legs are modelled as the
  source's sums. Their values, and what fsolve does with them, are left to the
  `fsolve` oracle; nothing is proved about convergence or the residual check.
  The residual check only logs.
- BasisAnalysis.ZSpread: brentq's tolerance and iterations are abstracted into
  the root-finder oracle. Only its bracket contract is assumed.
- HazardRate.ForwardHazard: the S(t2) <= 0 branch that returns
  MAX_HAZARD_RATE is kept but never reached, because exp is positive.
- HazardRate.HazardRateEngine.Create: requires a non-empty treasury curve, so
  the model excludes that input. The source still builds an engine from an
  empty treasury curve. With one CDS tenor no interpolation runs. With two or
  more, the IndexError from `_get_risk_free_rate` inside the fsolve objective
  is caught by the `except Exception` of `_solve_for_hazard_rate`, so every
  later node gets the credit triangle. Only later pricing raises.
- HazardRate.Objective.Trial: the source writes the trial rate into the
  engine's own `hazard_rates` dict during each objective call
  (hazard_rate.py:216). The model builds the trial curve as a new value. The
  write in place is not modelled; the node is overwritten with the final rate
  after fsolve returns or raises (hazard_rate.py:179), so the end state is the same.
- BasisAnalysis.AnalyzeBasis: `round(..., 2)` and `round(..., 4)` on the
  reported fields are not modelled. The signal and rationale strings are
  represented by the `Signal` value.
- `generate_report`, the pandas DataFrames, logging and warnings: formatting
  only.
- Live and cached data, the cache directory, the network and the clock:
  `_get_live_data`, `_fetch_treasury_curve`, `_get_cached_data`, `clear_cache`
  and the cache set-up in the provider's constructor. These are I/O.
- The `name`, `ticker` and `metadata` fields of the snapshot are not used by
  the core.

## Findings

| source | as written | input that shows it | evidently intended | confidence | as-written member | corrected member |
|---|---|---|---|---|---|---|
| src/hazard_rate.py:80 | the recovery check admits R = 1, and the bootstrap then divides by 1 - R at src/hazard_rate.py:173 and :279 | the dummy snapshot with recovery_rate 1.0 passes validation, and the first tenor's credit triangle divides by zero | reject R = 1 at validation, i.e. require 0 <= R < 1 | not executed | HazardRate.RecoveryOneAccepted | HazardRate.ValidateMarketDataStrict |

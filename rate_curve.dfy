/** The risk-free (treasury) curve: tenor -> rate, linear interpolation between
    the two bracketing tenors and flat beyond the first and the last. The engine
    and the pricer carry identical copies of this routine; both are modelled here. */
module RateCurve {
  import opened Common

  ghost predicate IsCurve(c: Dict) {
    c.Valid() && |c.keys| > 0
  }

  /** Straight-line interpolation between (t1, r1) and (t2, r2). */
  function Lerp(r1: real, r2: real, t1: real, t2: real, t: real): real
    requires t1 < t2
  {
    r1 + (r2 - r1) * (t - t1) / (t2 - t1)
  }

  lemma LerpBetween(r1: real, r2: real, t1: real, t2: real, t: real)
    requires t1 < t2 && t1 <= t <= t2
    ensures r1 <= r2 ==> r1 <= Lerp(r1, r2, t1, t2, t) <= r2
    ensures r2 <= r1 ==> r2 <= Lerp(r1, r2, t1, t2, t) <= r1
    ensures t == t1 ==> Lerp(r1, r2, t1, t2, t) == r1
    ensures t == t2 ==> Lerp(r1, r2, t1, t2, t) == r2
  {
    var w := (t - t1) / (t2 - t1);
    assert 0.0 <= w <= 1.0;
    MulDiv(r2 - r1, t - t1, t2 - t1);
    if r1 <= r2 {
      assert 0.0 <= (r2 - r1) * w <= (r2 - r1);
    }
    if r2 <= r1 {
      assert (r2 - r1) <= (r2 - r1) * w <= 0.0;
    }
  }

  lemma MulDiv(a: real, b: real, d: real)
    requires d != 0.0
    ensures a * b / d == a * (b / d)
  {
    var q := b / d;
    assert b == q * d;
    assert a * b == (a * q) * d;
  }

  /** The scan of the bracketing pairs (ts[i], ts[i+1]), (ts[i+1], ts[i+2]), ...:
      the first pair with ts[j] <= t <= ts[j+1] interpolates; none gives the last rate. */
  function Scan(v: map<real, real>, ts: seq<real>, i: nat, t: real): real
    requires i < |ts|
    requires StrictlyIncreasing(ts)
    requires Covers(ts, v)
    decreases |ts| - i
  {
    if i + 1 >= |ts| then v[ts[|ts| - 1]]
    else if ts[i] <= t <= ts[i + 1] then Lerp(v[ts[i]], v[ts[i + 1]], ts[i], ts[i + 1], t)
    else Scan(v, ts, i + 1, t)
  }

  /** The rate the source's _get_risk_free_rate returns at time t. */
  function Rate(c: Dict, t: real): real
    requires IsCurve(c)
  {
    var ts := Sorted(c.keys);
    SortedKeysCovered(c);
    if t <= ts[0] then c.values[ts[0]]
    else if t >= ts[|ts| - 1] then c.values[ts[|ts| - 1]]
    else Scan(c.values, ts, 0, t)
  }

  /** The exponent -r(t) * t of the discount factor. */
  function DiscountExponent(c: Dict, t: real): real
    requires IsCurve(c)
  {
    -Rate(c, t) * t
  }

  /** The discount factor exp(-r(t) * t) under the curve. */
  function Discount(exp: real -> real, c: Dict, t: real): real
    requires IsCurve(c)
  {
    exp(DiscountExponent(c, t))
  }

  /** _get_risk_free_rate: the flat-ends checks, then the loop over bracketing pairs. */
  method RiskFreeRate(c: Dict, t: real) returns (r: real)
    requires IsCurve(c)
    ensures r == Rate(c, t)
  {
    var ts := Sorted(c.keys);
    SortedKeysCovered(c);
    if t <= ts[0] {
      return c.values[ts[0]];
    }
    if t >= ts[|ts| - 1] {
      return c.values[ts[|ts| - 1]];
    }
    var i := 0;
    while i < |ts| - 1
      invariant 0 <= i <= |ts| - 1
      invariant Scan(c.values, ts, i, t) == Scan(c.values, ts, 0, t)
    {
      if ts[i] <= t <= ts[i + 1] {
        return Lerp(c.values[ts[i]], c.values[ts[i + 1]], ts[i], ts[i + 1], t);
      }
      i := i + 1;
    }
    return c.values[ts[|ts| - 1]];
  }

  /** Inside the bracket (ts[j], ts[j+1]) the scan started at i <= j yields the
      interpolation on that bracket (at a shared node both neighbours agree). */
  lemma {:induction false} ScanFindsBracket(v: map<real, real>, ts: seq<real>, i: nat, j: nat, t: real)
    requires StrictlyIncreasing(ts)
    requires Covers(ts, v)
    requires i <= j && j + 1 < |ts|
    requires ts[j] <= t <= ts[j + 1]
    ensures Scan(v, ts, i, t) == Lerp(v[ts[j]], v[ts[j + 1]], ts[j], ts[j + 1], t)
    decreases j - i
  {
    if i < j {
      if ts[i] <= t <= ts[i + 1] {
        // only possible when t is the shared node ts[i + 1] == ts[j]
        assert i + 1 == j && t == ts[j];
        LerpBetween(v[ts[i]], v[ts[i + 1]], ts[i], ts[i + 1], t);
        LerpBetween(v[ts[j]], v[ts[j + 1]], ts[j], ts[j + 1], t);
      } else {
        ScanFindsBracket(v, ts, i + 1, j, t);
      }
    }
  }

  /** Within the tenor range the rate is the linear interpolation on the
      bracketing pair, and so lies between the two bracketing rates. */
  lemma RateInterpolates(c: Dict, j: nat, t: real)
    requires IsCurve(c)
    requires j + 1 < |c.keys|
    requires Sorted(c.keys)[j] <= t <= Sorted(c.keys)[j + 1]
    ensures var ts := Sorted(c.keys);
      && Rate(c, t) == Lerp(c.values[ts[j]], c.values[ts[j + 1]], ts[j], ts[j + 1], t)
      && (c.values[ts[j]] <= c.values[ts[j + 1]] ==> c.values[ts[j]] <= Rate(c, t) <= c.values[ts[j + 1]])
      && (c.values[ts[j + 1]] <= c.values[ts[j]] ==> c.values[ts[j + 1]] <= Rate(c, t) <= c.values[ts[j]])
  {
    var ts := Sorted(c.keys);
    SortedKeysCovered(c);
    RateOnBracket(c, ts, j, t);
    LerpBetween(c.values[ts[j]], c.values[ts[j + 1]], ts[j], ts[j + 1], t);
  }

  lemma RateOnBracket(c: Dict, ts: seq<real>, j: nat, t: real)
    requires IsCurve(c) && ts == Sorted(c.keys) && Covers(ts, c.values)
    requires j + 1 < |ts| && ts[j] <= t <= ts[j + 1]
    ensures Rate(c, t) == Lerp(c.values[ts[j]], c.values[ts[j + 1]], ts[j], ts[j + 1], t)
  {
    var v := c.values;
    if t <= ts[0] {
      assert j == 0 && t == ts[0];
      LerpBetween(v[ts[j]], v[ts[j + 1]], ts[j], ts[j + 1], t);
    } else if t >= ts[|ts| - 1] {
      assert j + 1 == |ts| - 1 && t == ts[j + 1];
      LerpBetween(v[ts[j]], v[ts[j + 1]], ts[j], ts[j + 1], t);
    } else {
      ScanFindsBracket(v, ts, 0, j, t);
    }
  }

  /** Flat extrapolation: at or below the smallest tenor the rate is that tenor's
      rate; at or above the largest, the largest tenor's rate. */
  lemma RateFlatOutside(c: Dict, t: real)
    requires IsCurve(c)
    ensures var ts := Sorted(c.keys);
      && (t <= ts[0] ==> Rate(c, t) == c.values[ts[0]])
      && (t >= ts[|ts| - 1] ==> Rate(c, t) == c.values[ts[|ts| - 1]])
  {
  }

  /** The curve passes through its own nodes: at every quoted tenor the rate is
      exactly the quoted rate. */
  lemma RateAtNode(c: Dict, k: real)
    requires IsCurve(c)
    requires k in c.values
    ensures Rate(c, k) == c.values[k]
  {
    var ts := Sorted(c.keys);
    assert k in ts;
    var j :| 0 <= j < |ts| && ts[j] == k;
    if j + 1 < |ts| {
      RateInterpolates(c, j, k);
      LerpBetween(c.values[ts[j]], c.values[ts[j + 1]], ts[j], ts[j + 1], k);
    } else {
      RateFlatOutside(c, k);
    }
  }
}

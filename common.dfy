/** Shared vocabulary of the credit-analytics model: optional values and results,
    the exceptions the core raises, the numeric oracles (exp, ln), and Python
    dictionaries with real keys, kept in insertion order and traversed sorted. */
module Common {

  datatype Option<+T> = None | Some(value: T)

  /** The exceptions the modelled code raises. */
  datatype Error =
    | MissingMarketData       // ValueError: bond / cds_curve / treasury_curve absent
    | InvalidCdsCurve         // ValueError: CDS curve not a dict, or empty
    | MissingRecoveryRate     // KeyError on bond['recovery_rate']
    | RecoveryOutOfRange      // ValueError: recovery outside [0, 1]
    | ZeroDivision            // ZeroDivisionError from a float division
    | ForwardTimesOutOfOrder  // ValueError: t2 <= t1
    | InvalidMode             // ValueError: data-provider mode not recognised
    | RootNotConverged        // RuntimeError raised by the bracketing root finder
    | NoTenors                // ValueError from min() over the tenors of an empty CDS curve

  datatype Result<+T> = Ok(value: T) | Err(error: Error)

  /** What an exact exponential promises: exp(0) = 1 and strict increase
      (hence exp(x) > 0, and exp(x) <= 1 for x <= 0). */
  ghost predicate IsExp(exp: real -> real) {
    && exp(0.0) == 1.0
    && (forall x :: exp(x) > 0.0)
    && (forall x, y :: x < y ==> exp(x) < exp(y))
  }

  /** ln inverts exp on the positive reals. */
  ghost predicate IsLogOf(ln: real -> real, exp: real -> real) {
    forall q :: q > 0.0 ==> exp(ln(q)) == q
  }

  lemma ExpAtMostOne(exp: real -> real, x: real)
    requires IsExp(exp)
    requires x <= 0.0
    ensures 0.0 < exp(x) <= 1.0
  {
    if x < 0.0 {
      assert exp(x) < exp(0.0);
    }
  }

  lemma ExpMonotone(exp: real -> real, x: real, y: real)
    requires IsExp(exp)
    requires x <= y
    ensures exp(x) <= exp(y)
  {
    if x < y {
      assert exp(x) < exp(y);
    }
  }

  /** np.clip(x, lo, hi) for lo <= hi. */
  function Clip(x: real, lo: real, hi: real): (r: real)
    requires lo <= hi
    ensures lo <= r <= hi
    ensures lo <= x <= hi ==> r == x
    ensures x < lo ==> r == lo
    ensures x > hi ==> r == hi
  {
    if x < lo then lo else if x > hi then hi else x
  }

  function Abs(x: real): real {
    if x < 0.0 then -x else x
  }

  function Sum(s: seq<real>): real {
    if s == [] then 0.0 else Sum(s[..|s| - 1]) + s[|s| - 1]
  }

  ghost predicate StrictlyIncreasing(s: seq<real>) {
    forall i, j :: 0 <= i < j < |s| ==> s[i] < s[j]
  }

  ghost predicate Distinct(s: seq<real>) {
    forall i, j :: 0 <= i < j < |s| ==> s[i] != s[j]
  }

  /** A Python dict with real keys: the keys in insertion order, and the values. */
  datatype Dict = Dict(keys: seq<real>, values: map<real, real>) {
    ghost predicate Valid() {
      && Distinct(keys)
      && (forall k :: k in keys ==> k in values)
      && Covers(keys, values)
      && (forall k :: k in values ==> k in keys)
    }
  }

  /** d[k] = v: a new key goes to the end of the insertion order, an existing key keeps its place. */
  function Put(d: Dict, k: real, v: real): (r: Dict)
    requires d.Valid()
    ensures r.Valid()
    ensures r.values == d.values[k := v]
    ensures k in d.values ==> r.keys == d.keys
    ensures k !in d.values ==> r.keys == d.keys + [k]
  {
    if k in d.values then Dict(d.keys, d.values[k := v]) else Dict(d.keys + [k], d.values[k := v])
  }

  /** Every entry of `ts` is a key of `v`. */
  ghost predicate Covers(ts: seq<real>, v: map<real, real>) {
    forall j :: 0 <= j < |ts| ==> ts[j] in v
  }

  /** The sorted keys of a dict are all looked up successfully. */
  lemma SortedKeysCovered(d: Dict)
    requires d.Valid()
    ensures Covers(Sorted(d.keys), d.values)
  {
    var ts := Sorted(d.keys);
    forall j | 0 <= j < |ts| ensures ts[j] in d.values {
      assert ts[j] in ts;
    }
  }

  /** Inserting a key into a strictly increasing sequence that lacks it. */
  function Insert(x: real, s: seq<real>): (r: seq<real>)
    requires StrictlyIncreasing(s)
    requires x !in s
    ensures |r| == |s| + 1
    ensures StrictlyIncreasing(r)
    ensures forall k :: k in r <==> k == x || k in s
  {
    if s == [] || x < s[0] then
      assert forall k :: k in s ==> x < k;
      [x] + s
    else
      assert x !in s[1..];
      var rest := Insert(x, s[1..]);
      assert forall k :: k in s[1..] ==> s[0] < k;
      assert forall j :: 0 <= j < |rest| ==> s[0] < rest[j] by {
        forall j | 0 <= j < |rest| ensures s[0] < rest[j] {
          assert rest[j] in rest;
        }
      }
      [s[0]] + rest
  }

  /** Python's sorted(d.keys()) for a dict whose keys are `keys`. */
  function Sorted(keys: seq<real>): (r: seq<real>)
    requires Distinct(keys)
    ensures |r| == |keys|
    ensures StrictlyIncreasing(r)
    ensures forall k :: k in r <==> k in keys
  {
    if keys == [] then []
    else
      var last := keys[|keys| - 1];
      var init := keys[..|keys| - 1];
      assert forall k :: k in keys ==> k == last || k in init;
      Insert(last, Sorted(init))
  }
}

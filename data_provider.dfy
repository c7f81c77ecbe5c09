/** The market snapshot the data provider hands to the core: as a value (possibly
    malformed, for the validity checks) and as the mutable objects the engine and
    the basis analyser share. Also the provider's mode check and its fixed
    dummy snapshot. */
module DataProvider {
  import opened Common

  type PositiveInt = n: int | n >= 1 witness 1

  // ---------------------------------------------------------------------------
  // The snapshot as received: every key may be missing.

  datatype BondFields = BondFields(
    price: Option<real>,
    coupon: Option<real>,
    yearsToMaturity: Option<real>,
    recoveryRate: Option<real>,
    faceValue: Option<real>,
    frequency: Option<PositiveInt>)

  /** A curve entry of the snapshot: a dict, or some other kind of value. */
  datatype CurveField = Mapping(dict: Dict) | NotAMapping

  datatype Snapshot = Snapshot(
    bond: Option<BondFields>,
    cdsCurve: Option<CurveField>,
    treasuryCurve: Option<CurveField>)

  predicate HasRequiredKeys(s: Snapshot) {
    s.bond.Some? && s.cdsCurve.Some? && s.treasuryCurve.Some?
  }

  predicate HasBondKeys(b: BondFields) {
    b.price.Some? && b.coupon.Some? && b.yearsToMaturity.Some? && b.recoveryRate.Some?
  }

  /** validate_data: the checks run in order and the first failing one answers False.
      The ensures only collects the checks into one condition. What it means is
      stated by HazardRate.ValidationsAgree, which relates it to the engine's own
      validation, and by DummySnapshotValid, which shows the dummy snapshot passes. */
  function ValidateData(s: Snapshot): (ok: bool)
    ensures ok <==>
      && HasRequiredKeys(s)
      && HasBondKeys(s.bond.value)
      && 0.0 < s.bond.value.price.value < 200.0
      && 0.0 <= s.bond.value.recoveryRate.value <= 1.0
  {
    if !HasRequiredKeys(s) then false
    else if !HasBondKeys(s.bond.value) then false
    else if !(0.0 < s.bond.value.price.value < 200.0) then false
    else if !(0.0 <= s.bond.value.recoveryRate.value <= 1.0) then false
    else true
  }

  // ---------------------------------------------------------------------------
  // Provider modes.

  datatype Mode = Dummy | Live | Cached

  const ValidModes: seq<string> := ["dummy", "live", "cached"]

  function ModeName(m: Mode): string {
    match m
    case Dummy => "dummy"
    case Live => "live"
    case Cached => "cached"
  }

  /** The constructor's mode check: anything outside ValidModes is a ValueError. */
  function ParseMode(mode: string): (r: Result<Mode>)
    ensures r.Ok? <==> mode in ValidModes
    ensures r.Ok? ==> ModeName(r.value) == mode
    ensures r.Err? ==> r.error == InvalidMode
  {
    if mode == "dummy" then Ok(Dummy)
    else if mode == "live" then Ok(Live)
    else if mode == "cached" then Ok(Cached)
    else Err(InvalidMode)
  }

  /** Every mode's name is accepted and parses back to that mode. */
  lemma ModeRoundTrip(m: Mode)
    ensures ParseMode(ModeName(m)) == Ok(m)
  {
  }

  // ---------------------------------------------------------------------------
  // The well-formed snapshot as objects.

  /** The bond record: price, coupon, recovery and a whole number of coupon
      periods; face value and frequency fall back to 100 and 2 when absent. */
  datatype Bond = Bond(
    price: real,
    coupon: real,
    periods: nat,
    recoveryRate: real,
    faceValue: Option<real>,
    frequency: Option<PositiveInt>)
  {
    function Face(): real {
      match faceValue
      case Some(f) => f
      case None => 100.0
    }

    function Freq(): PositiveInt {
      match frequency
      case Some(f) => f
      case None => 2
    }

    /** years_to_maturity, a whole number of coupon periods. */
    function Years(): real {
      periods as real / Freq() as real
    }

    function Fields(): BondFields {
      BondFields(Some(price), Some(coupon), Some(Years()), Some(recoveryRate), faceValue, frequency)
    }
  }

  /** A CDS curve dict (tenor in years -> spread in bps), an object shared by reference. */
  class SpreadCurve {
    var entries: Dict

    ghost predicate Valid()
      reads this
    {
      entries.Valid()
    }

    constructor (d: Dict)
      requires d.Valid()
      ensures Valid() && entries == d
    {
      entries := d;
    }

    /** dict.copy(): a new object holding the same entries. */
    method Copy() returns (c: SpreadCurve)
      requires Valid()
      ensures fresh(c) && c.Valid() && c.entries == entries
    {
      c := new SpreadCurve(entries);
    }

    /** d[k] = v for a key already present: insertion order is unchanged. */
    method Set(k: real, v: real)
      requires Valid() && k in entries.values
      modifies this
      ensures Valid()
      ensures entries == Dict(old(entries.keys), old(entries.values)[k := v])
    {
      entries := Dict(entries.keys, entries.values[k := v]);
    }
  }

  /** The market_data dict: the bond, a reference to the CDS curve dict, and the treasury curve. */
  class MarketData {
    var bond: Bond
    var cdsCurve: SpreadCurve
    var treasuryCurve: Dict

    ghost predicate Valid()
      reads this, cdsCurve
    {
      cdsCurve.Valid() && treasuryCurve.Valid()
    }

    constructor (bond: Bond, cds: SpreadCurve, treasury: Dict)
      requires cds.Valid() && treasury.Valid()
      ensures Valid()
      ensures this.bond == bond && cdsCurve == cds && treasuryCurve == treasury
    {
      this.bond := bond;
      cdsCurve := cds;
      treasuryCurve := treasury;
    }

    /** The snapshot value these objects stand for. */
    function View(): Snapshot
      reads this, cdsCurve
    {
      Snapshot(Some(bond.Fields()), Some(Mapping(cdsCurve.entries)), Some(Mapping(treasuryCurve)))
    }
  }

  // ---------------------------------------------------------------------------
  // The fixed dummy snapshot.

  const DummyBond: Bond := Bond(94.50, 0.052, 14, 0.40, Some(100.0), Some(2))

  const DummyCds: Dict := Dict(
    [1.0, 3.0, 5.0, 7.0, 10.0],
    map[1.0 := 80.0, 3.0 := 110.0, 5.0 := 140.0, 7.0 := 160.0, 10.0 := 180.0])

  const DummyTreasury: Dict := Dict(
    [0.25, 0.5, 1.0, 2.0, 5.0, 10.0, 30.0],
    map[0.25 := 0.0495, 0.5 := 0.0490, 1.0 := 0.0480, 2.0 := 0.0460,
        5.0 := 0.0440, 10.0 := 0.0425, 30.0 := 0.0450])

  function DummySnapshot(): Snapshot {
    Snapshot(Some(DummyBond.Fields()), Some(Mapping(DummyCds)), Some(Mapping(DummyTreasury)))
  }

  /** The dummy CDS curve is a well-formed dict. */
  lemma DummyCdsValid()
    ensures DummyCds.Valid()
  {
    forall k | k in DummyCds.values ensures k in DummyCds.keys {
      assert k in {1.0, 3.0, 5.0, 7.0, 10.0};
    }
  }

  /** The dummy treasury curve is a well-formed dict. */
  lemma DummyTreasuryValid()
    ensures DummyTreasury.Valid()
  {
    forall k | k in DummyTreasury.values ensures k in DummyTreasury.keys {
      assert k in {0.25, 0.5, 1.0, 2.0, 5.0, 10.0, 30.0};
    }
  }

  /** The dummy snapshot passes validate_data; its bond matures in 7 years. */
  lemma DummySnapshotValid()
    ensures DummyBond.Years() == 7.0
    ensures ValidateData(DummySnapshot())
  {
  }
}

/** The older valuation of estimate_value.py: a vehicle's value from the
    weights of four parts, each at its per-kg price, and four items at fixed
    prices. The breakdown and the total are printed; here they are the
    outcome. The static price table, which the configuration module does not
    define, is a parameter. */
module LegacyValuation {
  import opened Wrappers
  import opened Store
  import opened Breakdown

  /** The attributes of a vehicle-master record this valuation reads. */
  datatype LegacyVehicle = LegacyVehicle(
    model_code: string,
    maker: string,
    car_name: Option<string>,
    engine_weight_kg: Option<real>,
    kouzan_weight_kg: Option<real>,
    wiring_weight_kg: Option<real>,
    press_weight_kg: Option<real>)

  /** The breakdown keys; `Label` gives each its text. */
  datatype Part = EngineTotal | KouzanTotal | WiringTotal | PressTotal | AluminumWheels | Catalyst | Freon | Airbag

  function Label(p: Part): string {
    match p
    case EngineTotal => "エンジン計"
    case KouzanTotal => "甲山計"
    case WiringTotal => "配線計"
    case PressTotal => "プレス計"
    case AluminumWheels => "アルミホイール"
    case Catalyst => "触媒"
    case Freon => "フロン"
    case Airbag => "エアバッグ"
  }

  /** The parts in the order the valuation writes them. */
  const Parts: seq<Part> := [EngineTotal, KouzanTotal, WiringTotal, PressTotal, AluminumWheels, Catalyst, Freon, Airbag]

  /** A part's position in `Parts`. */
  function Rank(p: Part): nat {
    match p
    case EngineTotal => 0
    case KouzanTotal => 1
    case WiringTotal => 2
    case PressTotal => 3
    case AluminumWheels => 4
    case Catalyst => 5
    case Freon => 6
    case Airbag => 7
  }

  /** The parts valued by weight. */
  predicate ByWeight(p: Part) {
    p.EngineTotal? || p.KouzanTotal? || p.WiringTotal? || p.PressTotal?
  }

  function Weight(v: LegacyVehicle, p: Part): Option<real> {
    match p
    case EngineTotal => v.engine_weight_kg
    case KouzanTotal => v.kouzan_weight_kg
    case WiringTotal => v.wiring_weight_kg
    case PressTotal => v.press_weight_kg
    case _ => None
  }

  /** The price-table key a part reads: a per-kg price for a part valued by
      weight, a fixed price for the others. */
  function PriceKey(p: Part): string {
    match p
    case EngineTotal => "engine_per_kg"
    case KouzanTotal => "kouzan_per_kg"
    case WiringTotal => "wiring_per_kg"
    case PressTotal => "press_per_kg"
    case AluminumWheels => "aluminum_wheels"
    case Catalyst => "catalyst"
    case Freon => "freon"
    case Airbag => "airbag"
  }

  /** A part is written when it has a fixed price or its weight is truthy. */
  predicate Written(v: LegacyVehicle, p: Part) {
    !ByWeight(p) || Given(Weight(v, p))
  }

  /** The key a written part looks up and does not find. */
  function PartMissing(v: LegacyVehicle, prices: map<string, real>, p: Part): Option<string> {
    if Written(v, p) && PriceKey(p) !in prices then Some(PriceKey(p)) else None
  }

  /** A written part's value: weight times per-kg price, or the fixed price. */
  function PartValue(v: LegacyVehicle, prices: map<string, real>, p: Part): real
    requires PartMissing(v, prices, p).None?
  {
    if !Written(v, p) then 0.0
    else if ByWeight(p) then WeightValue(Weight(v, p).value, prices[PriceKey(p)])
    else prices[PriceKey(p)]
  }

  /** A weight times its per-kg price. */
  function WeightValue(weight: real, perKg: real): real {
    weight * perKg
  }

  function PartEntry(v: LegacyVehicle, prices: map<string, real>, p: Part): seq<Entry<Part>>
    requires PartMissing(v, prices, p).None?
  {
    if Written(v, p) then [Entry(p, Amount(PartValue(v, prices, p)))] else []
  }

  // ---------------------------------------------------------------------
  // The valuation as a specification

  /** The first key the parts look up and do not find. */
  function MissingIn(v: LegacyVehicle, prices: map<string, real>, ps: seq<Part>): Option<string> {
    if ps == [] then None
    else
      var m := MissingIn(v, prices, ps[..|ps| - 1]);
      if m.Some? then m else PartMissing(v, prices, ps[|ps| - 1])
  }

  /** The entries the parts write, in order. */
  function EntriesOf(v: LegacyVehicle, prices: map<string, real>, ps: seq<Part>): seq<Entry<Part>>
    requires MissingIn(v, prices, ps).None?
  {
    if ps == [] then []
    else EntriesOf(v, prices, ps[..|ps| - 1]) + PartEntry(v, prices, ps[|ps| - 1])
  }

  /** The total, as the sum of the written parts' values. */
  function TotalOf(v: LegacyVehicle, prices: map<string, real>, ps: seq<Part>): real
    requires MissingIn(v, prices, ps).None?
  {
    if ps == [] then 0.0
    else TotalOf(v, prices, ps[..|ps| - 1]) + PartValue(v, prices, ps[|ps| - 1])
  }

  /** What a call ends with: the error message for an unknown model code, a
      `KeyError` for a price missing from the table, or the printed
      breakdown and total. */
  datatype Outcome = VehicleNotFound | Raised(key: string) | Printed(breakdown: seq<Entry<Part>>, total: real)

  /** `query(VehicleMaster).filter_by(model_code=code).first()`. */
  function FindVehicle(vehicles: seq<LegacyVehicle>, code: string): (r: Option<LegacyVehicle>)
    ensures r.Some? ==> r.value in vehicles && r.value.model_code == code
    ensures r.None? ==> forall v :: v in vehicles ==> v.model_code != code
  {
    if vehicles == [] then None
    else if vehicles[0].model_code == code then Some(vehicles[0])
    else FindVehicle(vehicles[1..], code)
  }

  /** `estimate_scrap_value(code)` of estimate_value.py. */
  function Legacy(code: string, vehicles: seq<LegacyVehicle>, prices: map<string, real>): Outcome {
    match FindVehicle(vehicles, code)
    case None => VehicleNotFound
    case Some(v) =>
      match MissingIn(v, prices, Parts)
      case Some(k) => Raised(k)
      case None => Printed(EntriesOf(v, prices, Parts), TotalOf(v, prices, Parts))
  }

  // ---------------------------------------------------------------------
  // Properties

  /** The parts are in strictly increasing rank, hence distinct. */
  predicate Increasing(ps: seq<Part>) {
    forall i, j :: 0 <= i < j < |ps| ==> Rank(ps[i]) < Rank(ps[j])
  }

  predicate KeysIncreasing(b: seq<Entry<Part>>) {
    forall i, j :: 0 <= i < j < |b| ==> Rank(b[i].key) < Rank(b[j].key)
  }

  /** The missing key is the first part's whose price is missing. */
  lemma {:induction false} MissingInFirst(v: LegacyVehicle, prices: map<string, real>, ps: seq<Part>)
    ensures MissingIn(v, prices, ps).None? <==> forall i :: 0 <= i < |ps| ==> PartMissing(v, prices, ps[i]).None?
    ensures MissingIn(v, prices, ps).Some? ==>
      exists i :: 0 <= i < |ps| && PartMissing(v, prices, ps[i]) == MissingIn(v, prices, ps)
                  && forall j :: 0 <= j < i ==> PartMissing(v, prices, ps[j]).None?
  {
    if ps != [] {
      var n := |ps| - 1;
      MissingInFirst(v, prices, ps[..n]);
      assert forall i :: 0 <= i < n ==> ps[..n][i] == ps[i];
      if MissingIn(v, prices, ps[..n]).Some? {
        var i :| 0 <= i < n && PartMissing(v, prices, ps[..n][i]) == MissingIn(v, prices, ps[..n])
                 && forall j :: 0 <= j < i ==> PartMissing(v, prices, ps[..n][j]).None?;
        assert PartMissing(v, prices, ps[i]) == MissingIn(v, prices, ps);
      } else if PartMissing(v, prices, ps[n]).Some? {
        assert PartMissing(v, prices, ps[n]) == MissingIn(v, prices, ps);
      }
    }
  }

  /** A key missing from a prefix is the key missing from the whole. */
  lemma {:induction false} MissingPrefix(v: LegacyVehicle, prices: map<string, real>, ps: seq<Part>, k: nat)
    requires k <= |ps|
    requires MissingIn(v, prices, ps[..k]).Some?
    ensures MissingIn(v, prices, ps) == MissingIn(v, prices, ps[..k])
    decreases |ps|
  {
    if k < |ps| {
      var n := |ps| - 1;
      assert ps[..n][..k] == ps[..k];
      MissingPrefix(v, prices, ps[..n], k);
    } else {
      assert ps[..k] == ps;
    }
  }

  /** One more part: the missing key, the entries and the total of the
      prefix grow by that part's. */
  lemma Extend(v: LegacyVehicle, prices: map<string, real>, ps: seq<Part>, k: nat)
    requires k < |ps|
    ensures MissingIn(v, prices, ps[..k + 1])
      == if MissingIn(v, prices, ps[..k]).Some? then MissingIn(v, prices, ps[..k]) else PartMissing(v, prices, ps[k])
    ensures MissingIn(v, prices, ps[..k + 1]).None? ==>
      && EntriesOf(v, prices, ps[..k + 1]) == EntriesOf(v, prices, ps[..k]) + PartEntry(v, prices, ps[k])
      && TotalOf(v, prices, ps[..k + 1]) == TotalOf(v, prices, ps[..k]) + PartValue(v, prices, ps[k])
  {
    assert ps[..k + 1][..k] == ps[..k];
  }

  lemma PartEntrySum(v: LegacyVehicle, prices: map<string, real>, p: Part)
    requires PartMissing(v, prices, p).None?
    ensures Sum(PartEntry(v, prices, p)) == PartValue(v, prices, p)
  {
    if Written(v, p) {
      SumOfOne(Entry(p, Amount(PartValue(v, prices, p))));
    }
  }

  /** The total is the sum of the breakdown. */
  lemma {:induction false} EntriesSum(v: LegacyVehicle, prices: map<string, real>, ps: seq<Part>)
    requires MissingIn(v, prices, ps).None?
    ensures Sum(EntriesOf(v, prices, ps)) == TotalOf(v, prices, ps)
  {
    if ps != [] {
      var n := |ps| - 1;
      EntriesSum(v, prices, ps[..n]);
      SumAppend(EntriesOf(v, prices, ps[..n]), PartEntry(v, prices, ps[n]));
      PartEntrySum(v, prices, ps[n]);
    }
  }

  /** Every entry is keyed by one of the parts. */
  lemma {:induction false} EntriesKeys(v: LegacyVehicle, prices: map<string, real>, ps: seq<Part>)
    requires MissingIn(v, prices, ps).None?
    ensures forall i :: 0 <= i < |EntriesOf(v, prices, ps)| ==> EntriesOf(v, prices, ps)[i].key in ps
  {
    if ps != [] {
      var n := |ps| - 1;
      EntriesKeys(v, prices, ps[..n]);
      var a: seq<Entry<Part>> := EntriesOf(v, prices, ps[..n]);
      var e: seq<Entry<Part>> := PartEntry(v, prices, ps[n]);
      forall i | 0 <= i < |a + e|
        ensures (a + e)[i].key in ps
      {
        if i < |a| {
          assert (a + e)[i] == a[i];
          assert a[i].key in ps[..n];
        } else {
          assert (a + e)[i] == e[i - |a|];
        }
      }
    }
  }

  /** Parts in increasing rank write entries in increasing rank. */
  lemma {:induction false} EntriesOrdered(v: LegacyVehicle, prices: map<string, real>, ps: seq<Part>)
    requires MissingIn(v, prices, ps).None?
    requires Increasing(ps)
    ensures KeysIncreasing(EntriesOf(v, prices, ps))
  {
    if ps != [] {
      var n := |ps| - 1;
      EntriesOrdered(v, prices, ps[..n]);
      EntriesKeys(v, prices, ps[..n]);
      var a: seq<Entry<Part>> := EntriesOf(v, prices, ps[..n]);
      var e: seq<Entry<Part>> := PartEntry(v, prices, ps[n]);
      forall i | 0 <= i < |a|
        ensures Rank(a[i].key) < Rank(ps[n])
      {
        var j :| 0 <= j < n && ps[..n][j] == a[i].key;
        assert ps[j] == a[i].key;
      }
      forall i, j | 0 <= i < j < |a + e|
        ensures Rank((a + e)[i].key) < Rank((a + e)[j].key)
      {
        if j < |a| {
          assert (a + e)[i] == a[i] && (a + e)[j] == a[j];
        } else {
          assert (a + e)[j] == e[j - |a|];
          assert (a + e)[i] == a[i];
        }
      }
    }
  }

  /** In distinct parts, each part's entry is found under its key exactly
      when it is written, with its value; no other key is found. */
  lemma {:induction false} EntriesLookup(v: LegacyVehicle, prices: map<string, real>, ps: seq<Part>, p: Part)
    requires MissingIn(v, prices, ps).None?
    requires Increasing(ps)
    ensures p in ps ==> (PartMissing(v, prices, p).None? &&
      Lookup(EntriesOf(v, prices, ps), p) == if Written(v, p) then Some(Amount(PartValue(v, prices, p))) else None)
    ensures p !in ps ==> Lookup(EntriesOf(v, prices, ps), p).None?
  {
    if ps != [] {
      var n := |ps| - 1;
      assert Increasing(ps[..n]);
      EntriesLookup(v, prices, ps[..n], p);
      var a := EntriesOf(v, prices, ps[..n]);
      var e := PartEntry(v, prices, ps[n]);
      LookupAppend(a, e, p);
      if p == ps[n] {
        assert p !in ps[..n] by {
          forall j | 0 <= j < n ensures ps[..n][j] != p {
            assert Rank(ps[j]) < Rank(ps[n]);
          }
        }
      } else if p in ps {
        assert p in ps[..n] by {
          var j :| 0 <= j < |ps| && ps[j] == p;
          assert ps[..n][j] == p;
        }
      } else {
        assert p !in ps[..n];
      }
    }
  }

  lemma PartsIncreasing()
    ensures Increasing(Parts)
  {
  }

  /** An unknown model code ends with the error message and nothing else;
      a known one never does. */
  lemma UnknownVehicle(code: string, vehicles: seq<LegacyVehicle>, prices: map<string, real>)
    ensures Legacy(code, vehicles, prices) == VehicleNotFound <==> forall v :: v in vehicles ==> v.model_code != code
  {
  }

  /** A `KeyError` names the first written part's missing price key. */
  lemma RaisedFirstMissing(code: string, vehicles: seq<LegacyVehicle>, prices: map<string, real>)
    requires Legacy(code, vehicles, prices).Raised?
    ensures FindVehicle(vehicles, code).Some?
    ensures var v := FindVehicle(vehicles, code).value;
      var k := Legacy(code, vehicles, prices).key;
      exists i :: 0 <= i < |Parts| && Written(v, Parts[i]) && PriceKey(Parts[i]) == k && k !in prices
                  && forall j :: 0 <= j < i ==> PartMissing(v, prices, Parts[j]).None?
  {
    MissingInFirst(FindVehicle(vehicles, code).value, prices, Parts);
  }

  /** The printed total is the sum of the printed breakdown. */
  lemma TotalIsSum(code: string, vehicles: seq<LegacyVehicle>, prices: map<string, real>)
    requires Legacy(code, vehicles, prices).Printed?
    ensures Sum(Legacy(code, vehicles, prices).breakdown) == Legacy(code, vehicles, prices).total
  {
    EntriesSum(FindVehicle(vehicles, code).value, prices, Parts);
  }

  /** The breakdown is written in the order engine, kouzan, wiring, press,
      aluminum wheels, catalyst, freon, airbag. */
  lemma BreakdownOrder(code: string, vehicles: seq<LegacyVehicle>, prices: map<string, real>)
    requires Legacy(code, vehicles, prices).Printed?
    ensures KeysIncreasing(Legacy(code, vehicles, prices).breakdown)
  {
    EntriesOrdered(FindVehicle(vehicles, code).value, prices, Parts);
  }

  /** A part valued by weight is in the breakdown exactly when its weight is
      truthy, as weight times per-kg price; the fixed items are always there
      at their configured prices. */
  lemma PartsInBreakdown(code: string, vehicles: seq<LegacyVehicle>, prices: map<string, real>, p: Part)
    requires Legacy(code, vehicles, prices).Printed?
    ensures var v := FindVehicle(vehicles, code).value;
      var b := Legacy(code, vehicles, prices).breakdown;
      && PartMissing(v, prices, p).None?
      && (ByWeight(p) ==>
            && (Lookup(b, p).Some? <==> Given(Weight(v, p)))
            && (Given(Weight(v, p)) ==> Lookup(b, p) == Some(Amount(WeightValue(Weight(v, p).value, prices[PriceKey(p)])))))
      && (!ByWeight(p) ==> PriceKey(p) in prices && Lookup(b, p) == Some(Amount(prices[PriceKey(p)])))
  {
    var v := FindVehicle(vehicles, code).value;
    assert MissingIn(v, prices, Parts).None?;
    assert Legacy(code, vehicles, prices).breakdown == EntriesOf(v, prices, Parts);
    assert p in Parts by {
      assert Parts[Rank(p)] == p;
    }
    PartsIncreasing();
    EntriesLookup(v, prices, Parts, p);
  }

  // ---------------------------------------------------------------------
  // The valuation as the source computes it

  /** One block of the valuation: a written part's price is looked up, its
      value stored under its key and added to the total. */
  method AddPart(v: LegacyVehicle, prices: map<string, real>, p: Part, breakdown0: seq<Entry<Part>>, total0: real)
    returns (missing: Option<string>, breakdown: seq<Entry<Part>>, total: real)
    ensures missing == PartMissing(v, prices, p)
    ensures missing.None? ==> breakdown == breakdown0 + PartEntry(v, prices, p) && total == total0 + PartValue(v, prices, p)
  {
    breakdown, total := breakdown0, total0;
    if Written(v, p) {
      if PriceKey(p) !in prices {
        return Some(PriceKey(p)), breakdown, total;
      }
      var value := if ByWeight(p) then WeightValue(Weight(v, p).value, prices[PriceKey(p)]) else prices[PriceKey(p)];
      breakdown := breakdown + [Entry(p, Amount(value))];
      total := total + value;
    }
    missing := None;
  }

  /** `estimate_scrap_value(code)`: the engine, kouzan, wiring and press
      blocks, then the four fixed items, each ending the call with a
      `KeyError` when its price is missing. The eight blocks differ only in
      the part, so they run here as one pass over `Parts`, in source order. */
  method EstimateScrapValue(code: string, vehicles: seq<LegacyVehicle>, prices: map<string, real>)
    returns (r: Outcome)
    ensures r == Legacy(code, vehicles, prices)
  {
    var found := FindVehicle(vehicles, code);
    if found.None? {
      return VehicleNotFound;
    }
    var v := found.value;
    var breakdown: seq<Entry<Part>> := [];
    var total := 0.0;
    var missing: Option<string>;
    for k := 0 to |Parts|
      invariant MissingIn(v, prices, Parts[..k]).None?
      invariant breakdown == EntriesOf(v, prices, Parts[..k])
      invariant total == TotalOf(v, prices, Parts[..k])
    {
      missing, breakdown, total := AddPart(v, prices, Parts[k], breakdown, total);
      Extend(v, prices, Parts, k);
      if missing.Some? {
        MissingPrefix(v, prices, Parts, k + 1);
        return Raised(missing.value);
      }
    }
    assert Parts[..|Parts|] == Parts;
    r := Printed(breakdown, total);
  }
}

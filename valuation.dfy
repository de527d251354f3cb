/** The valuation engine of src/estimate_value.py: a three-tier component
    price lookup over the price catalog, and the scrap valuation of one
    vehicle as an ordered breakdown, a total and remarks. The database is
    given as the vehicle-master rows and the catalog rows in table order; the
    static price table and the weight ratios, which the configuration module
    does not define, are parameters. */
module Valuation {
  import opened Wrappers
  import opened Text
  import opened Store
  import opened Breakdown

  /** A price-catalog row; `None` stands for SQL NULL. */
  datatype ComponentValue = ComponentValue(
    item_name: string,
    model_code: Option<string>,
    engine_model: Option<string>,
    details_tags: Option<string>,
    latest_price: real,
    average_price: real,
    sample_size: int)

  /** The attributes of a vehicle-master record the engine reads, and the
      whole record as `vehicle.dict()` returns it. */
  datatype Vehicle = Vehicle(
    model_code: string,
    engine_model: Option<string>,
    total_weight_kg: Option<real>,
    engine_weight_kg: Option<real>,
    info: Record)

  /** The keys of the breakdown dictionary; `Label` gives each its text. */
  datatype Key = ResaleMarker | Engine | Press | Kouzan | Harness | Wheels | Special(item: string) | Transport

  function Label(k: Key): string {
    match k
    case ResaleMarker => "エンジン部品販売"
    case Engine => EngineItem
    case Press => "プレス材 (鉄)"
    case Kouzan => "甲山 (ミックスメタル)"
    case Harness => "ハーネス (銅)"
    case Wheels => "アルミホイール"
    case Special(item) => item
    case Transport => "輸送費 (減算)"
  }

  /** What `estimate_scrap_value` returns. */
  datatype Report = Report(vehicle_info: Record, breakdown: seq<Entry<Key>>, total_value: real, remarks: seq<string>)

  /** How a call fails: a missing key of the price table or the ratio table,
      or `custom_prices.get` on `None`. */
  datatype Failure = KeyError(key: string) | NoCustomPrices

  const EngineItem := "エンジン/ミッション"
  const EngineWord := "エンジン"
  const SpecialItems: seq<string> := ["Catalyst", "Hybrid Battery"]
  const Sold := "〇"
  const NotSold := "×"
  const UnknownRemark := "DBに車種未登録"
  const EstimatedRemark := "エンジン重量は車両総重量からの推定値"
  /** The engine's assumed share of the total weight when its own weight is
      not recorded. */
  const EngineShare := 0.15

  // ---------------------------------------------------------------------
  // Store queries

  /** `query(VehicleMaster).filter_by(model_code=code).first()`. */
  function FindVehicle(vehicles: seq<Vehicle>, code: string): (r: Option<Vehicle>)
    ensures r.Some? ==> r.value in vehicles && r.value.model_code == code
    ensures r.None? ==> forall v :: v in vehicles ==> v.model_code != code
  {
    if vehicles == [] then None
    else if vehicles[0].model_code == code then Some(vehicles[0])
    else FindVehicle(vehicles[1..], code)
  }

  predicate ExactMatch(c: ComponentValue, item: string, code: string) {
    c.item_name == item && c.model_code == Some(code)
  }

  predicate EngineMatch(c: ComponentValue, item: string, engine: string) {
    c.item_name == item && c.engine_model == Some(engine) && c.model_code.None?
  }

  /** The first catalog row at or after `from` priced for this item and
      model code. */
  function FirstExact(catalog: seq<ComponentValue>, item: string, code: string, from: nat): (r: Option<nat>)
    requires from <= |catalog|
    ensures r.Some? ==> from <= r.value < |catalog| && ExactMatch(catalog[r.value], item, code)
    ensures r.Some? ==> forall j :: from <= j < r.value ==> !ExactMatch(catalog[j], item, code)
    ensures r.None? ==> forall j :: from <= j < |catalog| ==> !ExactMatch(catalog[j], item, code)
    decreases |catalog| - from
  {
    if from == |catalog| then None
    else if ExactMatch(catalog[from], item, code) then Some(from)
    else FirstExact(catalog, item, code, from + 1)
  }

  /** Among the first `n` rows, the model-independent row for this item and
      engine with the largest sample size (the earliest on a tie). */
  function BestSupported(catalog: seq<ComponentValue>, item: string, engine: string, n: nat): (r: Option<nat>)
    requires n <= |catalog|
    ensures r.Some? ==> r.value < n && EngineMatch(catalog[r.value], item, engine)
    ensures r.Some? ==> forall j :: 0 <= j < n && EngineMatch(catalog[j], item, engine) ==>
      catalog[j].sample_size <= catalog[r.value].sample_size
    ensures r.Some? ==> forall j :: 0 <= j < r.value && EngineMatch(catalog[j], item, engine) ==>
      catalog[j].sample_size < catalog[r.value].sample_size
    ensures r.None? <==> forall j :: 0 <= j < n ==> !EngineMatch(catalog[j], item, engine)
  {
    if n == 0 then None
    else
      var prev := BestSupported(catalog, item, engine, n - 1);
      if EngineMatch(catalog[n - 1], item, engine)
         && (prev.None? || catalog[n - 1].sample_size > catalog[prev.value].sample_size)
      then Some(n - 1)
      else prev
  }

  /** The static-table key of an item: lower-cased, spaces and slashes
      turned into underscores, suffixed with `_price`. */
  function DefaultKey(item: string): string {
    ReplaceChar(ReplaceChar(Lower(item), ' ', '_'), '/', '_') + "_price"
  }

  function DefaultPrice(defaults: map<string, real>, item: string): real {
    if DefaultKey(item) in defaults then defaults[DefaultKey(item)] else 0.0
  }

  /** `get_component_price`: the exact per-model price, else for an engine
      item of a vehicle with a known engine model the best-supported
      engine-generic price, else the static default. */
  function ComponentPrice(catalog: seq<ComponentValue>, defaults: map<string, real>, item: string, v: Vehicle): real {
    match FirstExact(catalog, item, v.model_code, 0)
    case Some(i) => catalog[i].average_price
    case None =>
      if Contains(item, EngineWord) && GivenText(v.engine_model) then
        match BestSupported(catalog, item, v.engine_model.value, |catalog|)
        case Some(i) => catalog[i].average_price
        case None => DefaultPrice(defaults, item)
      else DefaultPrice(defaults, item)
  }

  /** First tier: an exact hit decides the price, even a zero one. */
  lemma ExactTier(catalog: seq<ComponentValue>, defaults: map<string, real>, item: string, v: Vehicle, i: nat)
    requires i < |catalog| && ExactMatch(catalog[i], item, v.model_code)
    requires forall j :: 0 <= j < i ==> !ExactMatch(catalog[j], item, v.model_code)
    ensures ComponentPrice(catalog, defaults, item, v) == catalog[i].average_price
  {
    var r := FirstExact(catalog, item, v.model_code, 0);
    assert r.Some? && r.value == i;
  }

  /** Second tier: without an exact hit, an engine item of a vehicle with a
      known engine model takes the price of a model-independent row for
      that engine with the largest sample size. */
  lemma EngineTier(catalog: seq<ComponentValue>, defaults: map<string, real>, item: string, v: Vehicle, k: nat)
    requires forall j :: 0 <= j < |catalog| ==> !ExactMatch(catalog[j], item, v.model_code)
    requires Contains(item, EngineWord) && GivenText(v.engine_model)
    requires k < |catalog| && EngineMatch(catalog[k], item, v.engine_model.value)
    ensures exists i ::
      && 0 <= i < |catalog| && EngineMatch(catalog[i], item, v.engine_model.value)
      && (forall j :: 0 <= j < |catalog| && EngineMatch(catalog[j], item, v.engine_model.value) ==>
            catalog[j].sample_size <= catalog[i].sample_size)
      && ComponentPrice(catalog, defaults, item, v) == catalog[i].average_price
  {
    var r := BestSupported(catalog, item, v.engine_model.value, |catalog|);
    assert r.Some?;
    assert FirstExact(catalog, item, v.model_code, 0).None?;
  }

  /** Third tier: otherwise the static default, or 0 when it is missing. */
  lemma DefaultTier(catalog: seq<ComponentValue>, defaults: map<string, real>, item: string, v: Vehicle)
    requires forall j :: 0 <= j < |catalog| ==> !ExactMatch(catalog[j], item, v.model_code)
    requires !Contains(item, EngineWord) || !GivenText(v.engine_model)
      || forall j :: 0 <= j < |catalog| ==> !EngineMatch(catalog[j], item, v.engine_model.value)
    ensures ComponentPrice(catalog, defaults, item, v) == (if DefaultKey(item) in defaults then defaults[DefaultKey(item)] else 0.0)
  {
    assert FirstExact(catalog, item, v.model_code, 0).None?;
  }

  // ---------------------------------------------------------------------
  // Material values

  /** `calculate_material_value`: weight times ratio times per-kg price
      (0 when the price is missing) for press, kouzan and harness; 0 when
      the total weight is falsy. */
  function CalculateMaterialValue(v: Vehicle, prices: map<string, real>, ratios: map<string, real>): (r: Result<real, Failure>)
    ensures !Given(v.total_weight_kg) ==> r == Ok(0.0)
    ensures r.Err? <==> Given(v.total_weight_kg) && !("press" in ratios && "kouzan" in ratios && "harness" in ratios)
  {
    if !Given(v.total_weight_kg) then Ok(0.0)
    else if "press" !in ratios then Err(KeyError("press"))
    else if "kouzan" !in ratios then Err(KeyError("kouzan"))
    else if "harness" !in ratios then Err(KeyError("harness"))
    else
      Ok(MaterialAmount(v.total_weight_kg.value, ratios["press"], PriceOr0(prices, "press_per_kg"))
         + MaterialAmount(v.total_weight_kg.value, ratios["kouzan"], PriceOr0(prices, "kouzan_per_kg"))
         + MaterialAmount(v.total_weight_kg.value, ratios["harness"], PriceOr0(prices, "harness_per_kg")))
  }

  /** One material's value: weight times its share of the weight times its
      per-kg price. */
  function MaterialAmount(weight: real, ratio: real, perKg: real): real {
    weight * ratio * perKg
  }

  function PriceOr0(prices: map<string, real>, key: string): real {
    if key in prices then prices[key] else 0.0
  }

  // ---------------------------------------------------------------------
  // The valuation as a specification

  /** The price table in force: the static table updated by the custom one. */
  function Merge(defaults: map<string, real>, custom: Option<map<string, real>>): map<string, real> {
    if custom.Some? then defaults + custom.value else defaults
  }

  /** The first key a known vehicle's valuation looks up and does not find,
      in the order the lookups happen. */
  function MissingKey(v: Vehicle, prices: map<string, real>, ratios: map<string, real>): (r: Option<string>)
    ensures r.None? <==> KeysPresent(v, prices, ratios)
    ensures r.Some? && r.value in {"press", "kouzan", "harness"} ==> r.value !in ratios
    ensures r.Some? && r.value !in {"press", "kouzan", "harness"} ==> r.value !in prices
  {
    var w := Given(v.total_weight_kg);
    if w && "engine_per_kg" !in prices then Some("engine_per_kg")
    else if w && "press" !in ratios then Some("press")
    else if w && "press_per_kg" !in prices then Some("press_per_kg")
    else if w && "kouzan" !in ratios then Some("kouzan")
    else if w && "kouzan_per_kg" !in prices then Some("kouzan_per_kg")
    else if w && "harness" !in ratios then Some("harness")
    else if w && "harness_per_kg" !in prices then Some("harness_per_kg")
    else if "aluminum_wheels_price" !in prices then Some("aluminum_wheels_price")
    else None
  }

  predicate KeysPresent(v: Vehicle, prices: map<string, real>, ratios: map<string, real>) {
    && (Given(v.total_weight_kg) ==>
         && "engine_per_kg" in prices && "press_per_kg" in prices
         && "kouzan_per_kg" in prices && "harness_per_kg" in prices
         && "press" in ratios && "kouzan" in ratios && "harness" in ratios)
    && "aluminum_wheels_price" in prices
  }

  /** The engine's material value: its weight (or the estimated share of the
      total weight) times the per-kg engine price; 0 without a total weight. */
  function EngineMaterial(v: Vehicle, prices: map<string, real>): real
    requires Given(v.total_weight_kg) ==> "engine_per_kg" in prices
  {
    if !Given(v.total_weight_kg) then 0.0
    else EngineWeight(v) * prices["engine_per_kg"]
  }

  /** The engine's recorded weight, or else the estimated share of the total
      weight. */
  function EngineWeight(v: Vehicle): real
    requires Given(v.total_weight_kg)
  {
    if Given(v.engine_weight_kg) then v.engine_weight_kg.value
    else v.total_weight_kg.value * EngineShare
  }

  function Max(a: real, b: real): real {
    if a > b then a else b
  }

  function EngineResale(catalog: seq<ComponentValue>, defaults: map<string, real>, v: Vehicle): real {
    ComponentPrice(catalog, defaults, EngineItem, v)
  }

  /** The resolved price of each special item, against the static table. */
  function SpecialPrices(catalog: seq<ComponentValue>, defaults: map<string, real>, v: Vehicle): (ps: seq<real>)
    ensures |ps| == |SpecialItems|
    ensures forall i :: 0 <= i < |SpecialItems| ==> ps[i] == ComponentPrice(catalog, defaults, SpecialItems[i], v)
  {
    seq(|SpecialItems|, i requires 0 <= i < |SpecialItems| => ComponentPrice(catalog, defaults, SpecialItems[i], v))
  }

  /** The resale marker and the engine entry. */
  function HeadEntries(resale: real, material: real): seq<Entry<Key>> {
    [Entry(ResaleMarker, Mark(if resale > 0.0 then Sold else NotSold)),
     Entry(Engine, Amount(Max(resale, material)))]
  }

  function MaterialEntries(v: Vehicle, prices: map<string, real>, ratios: map<string, real>): seq<Entry<Key>>
    requires KeysPresent(v, prices, ratios)
  {
    if !Given(v.total_weight_kg) then []
    else
      [Entry(Press, Amount(MaterialAmount(v.total_weight_kg.value, ratios["press"], prices["press_per_kg"]))),
       Entry(Kouzan, Amount(MaterialAmount(v.total_weight_kg.value, ratios["kouzan"], prices["kouzan_per_kg"]))),
       Entry(Harness, Amount(MaterialAmount(v.total_weight_kg.value, ratios["harness"], prices["harness_per_kg"])))]
  }

  function WheelEntries(prices: map<string, real>): seq<Entry<Key>>
    requires "aluminum_wheels_price" in prices
  {
    [Entry(Wheels, Amount(prices["aluminum_wheels_price"]))]
  }

  /** The entries of the items whose price is positive, in order. */
  function SpecialEntries(items: seq<string>, ps: seq<real>): seq<Entry<Key>>
    requires |items| == |ps|
  {
    if items == [] then []
    else
      var n := |items| - 1;
      SpecialEntries(items[..n], ps[..n]) + (if ps[n] > 0.0 then [Entry(Special(items[n]), Amount(ps[n]))] else [])
  }

  /** The sum of the positive prices. */
  function PositiveSum(ps: seq<real>): real {
    if ps == [] then 0.0
    else PositiveSum(ps[..|ps| - 1]) + (if ps[|ps| - 1] > 0.0 then ps[|ps| - 1] else 0.0)
  }

  /** `custom_prices.get("transport_cost", 0)`. */
  function TransportCost(custom: map<string, real>): real {
    if "transport_cost" in custom then custom["transport_cost"] else 0.0
  }

  function TransportEntries(custom: map<string, real>): seq<Entry<Key>> {
    var t := TransportCost(custom);
    if t > 0.0 then [Entry(Transport, Amount(-t))] else []
  }

  /** The breakdown of a known vehicle, given its engine resale price and the
      prices of the special items. */
  function BreakdownOf(v: Vehicle, resale: real, ps: seq<real>, prices: map<string, real>,
                       ratios: map<string, real>, custom: map<string, real>): seq<Entry<Key>>
    requires KeysPresent(v, prices, ratios) && |ps| == |SpecialItems|
  {
    HeadEntries(resale, EngineMaterial(v, prices))
    + MaterialEntries(v, prices, ratios)
    + WheelEntries(prices)
    + SpecialEntries(SpecialItems, ps)
    + TransportEntries(custom)
  }

  /** The total, computed on its own: the larger engine value, the material
      value, the wheels, the positive special prices, less a positive
      transport cost. */
  function TotalOf(v: Vehicle, resale: real, ps: seq<real>, prices: map<string, real>,
                   ratios: map<string, real>, custom: map<string, real>): real
    requires KeysPresent(v, prices, ratios)
  {
    var t := TransportCost(custom);
    Max(resale, EngineMaterial(v, prices))
      + CalculateMaterialValue(v, prices, ratios).value
      + prices["aluminum_wheels_price"]
      + PositiveSum(ps)
      - (if t > 0.0 then t else 0.0)
  }

  function RemarksOf(v: Vehicle): seq<string> {
    if Given(v.total_weight_kg) && !Given(v.engine_weight_kg) then [EstimatedRemark] else []
  }

  /** The report for a model code missing from the vehicle master. */
  function UnknownReport(code: string): Report {
    Report(map["model_code" := Str(code)], [Entry(ResaleMarker, Mark(NotSold))], 0.0, [UnknownRemark])
  }

  /** `estimate_scrap_value(code, session, custom_prices)`. */
  function Estimate(code: string, vehicles: seq<Vehicle>, catalog: seq<ComponentValue>,
                    defaults: map<string, real>, ratios: map<string, real>,
                    custom: Option<map<string, real>>): Result<Report, Failure>
  {
    match FindVehicle(vehicles, code)
    case None => Ok(UnknownReport(code))
    case Some(v) =>
      var prices := Merge(defaults, custom);
      match MissingKey(v, prices, ratios)
      case Some(k) => Err(KeyError(k))
      case None =>
        if custom.None? then Err(NoCustomPrices)
        else
          var resale := EngineResale(catalog, defaults, v);
          var ps := SpecialPrices(catalog, defaults, v);
          Ok(Report(v.info, BreakdownOf(v, resale, ps, prices, ratios, custom.value),
                    TotalOf(v, resale, ps, prices, ratios, custom.value), RemarksOf(v)))
  }

  /** A successful valuation of a known vehicle had custom prices, found
      every key it looked up and reports the breakdown and total above. */
  lemma KnownReport(code: string, vehicles: seq<Vehicle>, catalog: seq<ComponentValue>,
                    defaults: map<string, real>, ratios: map<string, real>, custom: Option<map<string, real>>)
    requires Estimate(code, vehicles, catalog, defaults, ratios, custom).Ok?
    requires FindVehicle(vehicles, code).Some?
    ensures custom.Some?
    ensures KeysPresent(FindVehicle(vehicles, code).value, Merge(defaults, custom), ratios)
    ensures var v := FindVehicle(vehicles, code).value;
      var resale := EngineResale(catalog, defaults, v);
      var ps := SpecialPrices(catalog, defaults, v);
      Estimate(code, vehicles, catalog, defaults, ratios, custom).value
        == Report(v.info, BreakdownOf(v, resale, ps, Merge(defaults, custom), ratios, custom.value),
                  TotalOf(v, resale, ps, Merge(defaults, custom), ratios, custom.value), RemarksOf(v))
  {
  }

  /** The breakdown part of `KnownReport`. */
  lemma KnownBreakdown(code: string, vehicles: seq<Vehicle>, catalog: seq<ComponentValue>,
                       defaults: map<string, real>, ratios: map<string, real>, custom: Option<map<string, real>>)
    requires Estimate(code, vehicles, catalog, defaults, ratios, custom).Ok?
    requires FindVehicle(vehicles, code).Some?
    ensures custom.Some?
    ensures KeysPresent(FindVehicle(vehicles, code).value, Merge(defaults, custom), ratios)
    ensures var v := FindVehicle(vehicles, code).value;
      Estimate(code, vehicles, catalog, defaults, ratios, custom).value.breakdown
        == BreakdownOf(v, EngineResale(catalog, defaults, v), SpecialPrices(catalog, defaults, v),
                       Merge(defaults, custom), ratios, custom.value)
  {
    KnownReport(code, vehicles, catalog, defaults, ratios, custom);
  }

  // ---------------------------------------------------------------------
  // The total

  lemma {:induction false} SpecialSum(items: seq<string>, ps: seq<real>)
    requires |items| == |ps|
    ensures Sum(SpecialEntries(items, ps)) == PositiveSum(ps)
  {
    if items != [] {
      var n := |items| - 1;
      SpecialSum(items[..n], ps[..n]);
      var last := if ps[n] > 0.0 then [Entry(Special(items[n]), Amount(ps[n]))] else [];
      SumAppend(SpecialEntries(items[..n], ps[..n]), last);
      if ps[n] > 0.0 {
        SumOfOne(last[0]);
      }
    }
  }

  lemma BreakdownSum(v: Vehicle, resale: real, ps: seq<real>, prices: map<string, real>,
                     ratios: map<string, real>, custom: map<string, real>)
    requires KeysPresent(v, prices, ratios) && |ps| == |SpecialItems|
    ensures Sum(BreakdownOf(v, resale, ps, prices, ratios, custom)) == TotalOf(v, resale, ps, prices, ratios, custom)
  {
    var a := HeadEntries(resale, EngineMaterial(v, prices));
    var m := MaterialEntries(v, prices, ratios);
    var w := WheelEntries(prices);
    var s := SpecialEntries(SpecialItems, ps);
    var t := TransportEntries(custom);
    assert Sum(a + m + w + s + t) == Sum(a) + Sum(m) + Sum(w) + Sum(s) + Sum(t) by {
      SumAppend(a, m);
      SumAppend(a + m, w);
      SumAppend(a + m + w, s);
      SumAppend(a + m + w + s, t);
    }
    SpecialSum(SpecialItems, ps);
    PartSums(v, resale, prices, ratios, custom);
  }

  /** The sums of the head, material, wheel and transport entries. */
  lemma PartSums(v: Vehicle, resale: real, prices: map<string, real>, ratios: map<string, real>, custom: map<string, real>)
    requires KeysPresent(v, prices, ratios)
    ensures Sum(HeadEntries(resale, EngineMaterial(v, prices))) == Max(resale, EngineMaterial(v, prices))
    ensures Sum(MaterialEntries(v, prices, ratios)) == CalculateMaterialValue(v, prices, ratios).value
    ensures Sum(WheelEntries(prices)) == prices["aluminum_wheels_price"]
    ensures Sum(TransportEntries(custom)) == if TransportCost(custom) > 0.0 then -TransportCost(custom) else 0.0
  {
    var a := HeadEntries(resale, EngineMaterial(v, prices));
    assert Sum(a) == Max(resale, EngineMaterial(v, prices)) by {
      assert a[..1] == [a[0]];
      SumOfOne(a[0]);
    }
    var m := MaterialEntries(v, prices, ratios);
    if Given(v.total_weight_kg) {
      SumOfThree(m[0], m[1], m[2]);
    }
    SumOfOne(WheelEntries(prices)[0]);
    var t := TransportEntries(custom);
    if t != [] {
      SumOfOne(t[0]);
    }
  }

  /** `total_value` is exactly the sum of the numeric breakdown entries:
      every entry but the resale marker. */
  lemma TotalIsBreakdownSum(code: string, vehicles: seq<Vehicle>, catalog: seq<ComponentValue>,
                            defaults: map<string, real>, ratios: map<string, real>, custom: Option<map<string, real>>)
    ensures var r := Estimate(code, vehicles, catalog, defaults, ratios, custom);
      r.Ok? ==> r.value.total_value == Sum(r.value.breakdown)
  {
    var r := Estimate(code, vehicles, catalog, defaults, ratios, custom);
    if r.Ok? {
      match FindVehicle(vehicles, code)
      case None =>
        SumOfOne(Entry(ResaleMarker, Mark(NotSold)));
      case Some(v) =>
        KnownReport(code, vehicles, catalog, defaults, ratios, custom);
        BreakdownSum(v, EngineResale(catalog, defaults, v), SpecialPrices(catalog, defaults, v),
                     Merge(defaults, custom), ratios, custom.value);
    }
  }

  /** An unknown model code is not an error: the report holds only the
      model code, the "not sold" marker, total 0 and the unregistered
      remark. */
  lemma UnknownVehicle(code: string, vehicles: seq<Vehicle>, catalog: seq<ComponentValue>,
                       defaults: map<string, real>, ratios: map<string, real>, custom: Option<map<string, real>>)
    requires forall v :: v in vehicles ==> v.model_code != code
    ensures Estimate(code, vehicles, catalog, defaults, ratios, custom)
      == Ok(Report(map["model_code" := Str(code)], [Entry(ResaleMarker, Mark(NotSold))], 0.0, [UnknownRemark]))
  {
    assert FindVehicle(vehicles, code).None?;
  }

  /** Which call fails: a known vehicle fails on the first missing key of
      the lookups it makes, and otherwise, without custom prices, on reading
      the transport cost from `None`. */
  lemma Failures(code: string, vehicles: seq<Vehicle>, catalog: seq<ComponentValue>,
                 defaults: map<string, real>, ratios: map<string, real>, custom: Option<map<string, real>>)
    ensures var r := Estimate(code, vehicles, catalog, defaults, ratios, custom);
      && (r.Err? <==>
            (FindVehicle(vehicles, code).Some?
             && (!KeysPresent(FindVehicle(vehicles, code).value, Merge(defaults, custom), ratios) || custom.None?)))
      && (r == Err(NoCustomPrices) ==> custom.None?)
  {
  }

  // ---------------------------------------------------------------------
  // Order of the breakdown keys

  /** The rank of each breakdown key in the order the entries are added. */
  function Rank(key: Key): nat {
    match key
    case ResaleMarker => 0
    case Engine => 1
    case Press => 2
    case Kouzan => 3
    case Harness => 4
    case Wheels => 5
    case Special(item) => if item == "Catalyst" then 6 else if item == "Hybrid Battery" then 7 else 9
    case Transport => 8
  }

  predicate RanksBetween(b: seq<Entry<Key>>, lo: nat, hi: nat) {
    && (forall i :: 0 <= i < |b| ==> lo <= Rank(b[i].key) < hi)
    && (forall i, j :: 0 <= i < j < |b| ==> Rank(b[i].key) < Rank(b[j].key))
  }

  lemma RanksConcat(a: seq<Entry<Key>>, b: seq<Entry<Key>>, lo: nat, mid: nat, hi: nat)
    requires lo <= mid <= hi
    requires RanksBetween(a, lo, mid) && RanksBetween(b, mid, hi)
    ensures RanksBetween(a + b, lo, hi)
  {
    forall i | 0 <= i < |a + b| ensures lo <= Rank((a + b)[i].key) < hi {
      if i < |a| {
        assert (a + b)[i] == a[i];
      } else {
        assert (a + b)[i] == b[i - |a|];
      }
    }
    forall i, j | 0 <= i < j < |a + b| ensures Rank((a + b)[i].key) < Rank((a + b)[j].key) {
      if j < |a| {
        assert (a + b)[i] == a[i] && (a + b)[j] == a[j];
      } else if i < |a| {
        assert (a + b)[i] == a[i];
        assert (a + b)[j] == b[j - |a|];
      } else {
        assert (a + b)[i] == b[i - |a|];
        assert (a + b)[j] == b[j - |a|];
      }
    }
  }

  /** A piece whose ranks exclude a key's rank does not hold that key. */
  lemma AbsentByRank(b: seq<Entry<Key>>, key: Key, lo: nat, hi: nat)
    requires RanksBetween(b, lo, hi) && !(lo <= Rank(key) < hi)
    ensures Lookup(b, key).None?
  {
    LookupMissing(b, key);
  }

  lemma SpecialEntriesExpand(ps: seq<real>)
    requires |ps| == |SpecialItems|
    ensures SpecialEntries(SpecialItems, ps)
      == (if ps[0] > 0.0 then [Entry(Special("Catalyst"), Amount(ps[0]))] else [])
         + (if ps[1] > 0.0 then [Entry(Special("Hybrid Battery"), Amount(ps[1]))] else [])
  {
    assert SpecialItems[..1] == ["Catalyst"];
    assert ["Catalyst"][..0] == [];
    assert ps[..1][..0] == [];
    assert SpecialEntries(["Catalyst"], ps[..1])
      == [] + (if ps[0] > 0.0 then [Entry(Special("Catalyst"), Amount(ps[0]))] else []);
  }

  lemma HeadRanks(resale: real, material: real)
    ensures RanksBetween(HeadEntries(resale, material), 0, 2)
  {
  }

  lemma MaterialRanks(v: Vehicle, prices: map<string, real>, ratios: map<string, real>)
    requires KeysPresent(v, prices, ratios)
    ensures RanksBetween(MaterialEntries(v, prices, ratios), 2, 5)
  {
  }

  lemma WheelRanks(prices: map<string, real>)
    requires "aluminum_wheels_price" in prices
    ensures RanksBetween(WheelEntries(prices), 5, 6)
  {
  }

  lemma SpecialRanks(ps: seq<real>)
    requires |ps| == |SpecialItems|
    ensures RanksBetween(SpecialEntries(SpecialItems, ps), 6, 8)
  {
    SpecialEntriesExpand(ps);
  }

  lemma TransportRanks(custom: map<string, real>)
    ensures RanksBetween(TransportEntries(custom), 8, 9)
  {
  }

  lemma PieceRanks(v: Vehicle, resale: real, ps: seq<real>, prices: map<string, real>,
                   ratios: map<string, real>, custom: map<string, real>)
    requires KeysPresent(v, prices, ratios) && |ps| == |SpecialItems|
    ensures RanksBetween(HeadEntries(resale, EngineMaterial(v, prices)), 0, 2)
    ensures RanksBetween(MaterialEntries(v, prices, ratios), 2, 5)
    ensures RanksBetween(WheelEntries(prices), 5, 6)
    ensures RanksBetween(SpecialEntries(SpecialItems, ps), 6, 8)
    ensures RanksBetween(TransportEntries(custom), 8, 9)
  {
    HeadRanks(resale, EngineMaterial(v, prices));
    MaterialRanks(v, prices, ratios);
    WheelRanks(prices);
    SpecialRanks(ps);
    TransportRanks(custom);
  }

  lemma BreakdownRanks(v: Vehicle, resale: real, ps: seq<real>, prices: map<string, real>,
                       ratios: map<string, real>, custom: map<string, real>)
    requires KeysPresent(v, prices, ratios) && |ps| == |SpecialItems|
    ensures RanksBetween(BreakdownOf(v, resale, ps, prices, ratios, custom), 0, 9)
  {
    var a := HeadEntries(resale, EngineMaterial(v, prices));
    var m := MaterialEntries(v, prices, ratios);
    var w := WheelEntries(prices);
    var s := SpecialEntries(SpecialItems, ps);
    var t := TransportEntries(custom);
    PieceRanks(v, resale, ps, prices, ratios, custom);
    RanksConcat(a, m, 0, 2, 5);
    RanksConcat(a + m, w, 0, 5, 6);
    RanksConcat(a + m + w, s, 0, 6, 8);
    RanksConcat(a + m + w + s, t, 0, 8, 9);
  }

  /** Breakdown keys are distinct and appear in the fixed order: marker,
      engine, press, kouzan, harness, wheels, the special items, transport. */
  lemma KeysInFixedOrder(code: string, vehicles: seq<Vehicle>, catalog: seq<ComponentValue>,
                         defaults: map<string, real>, ratios: map<string, real>, custom: Option<map<string, real>>)
    ensures var r := Estimate(code, vehicles, catalog, defaults, ratios, custom);
      r.Ok? ==> forall i, j :: 0 <= i < j < |r.value.breakdown| ==>
        Rank(r.value.breakdown[i].key) < Rank(r.value.breakdown[j].key) < 9
  {
    var r := Estimate(code, vehicles, catalog, defaults, ratios, custom);
    if r.Ok? && FindVehicle(vehicles, code).Some? {
      var v := FindVehicle(vehicles, code).value;
      KnownReport(code, vehicles, catalog, defaults, ratios, custom);
      BreakdownRanks(v, EngineResale(catalog, defaults, v), SpecialPrices(catalog, defaults, v),
                     Merge(defaults, custom), ratios, custom.value);
    }
  }

  // ---------------------------------------------------------------------
  // The value under each key

  /** A key is found in the piece its rank belongs to. */
  lemma LookupByPiece(v: Vehicle, resale: real, ps: seq<real>, prices: map<string, real>,
                      ratios: map<string, real>, custom: map<string, real>, key: Key)
    requires KeysPresent(v, prices, ratios) && |ps| == |SpecialItems|
    ensures Lookup(BreakdownOf(v, resale, ps, prices, ratios, custom), key)
      == if Rank(key) < 2 then Lookup(HeadEntries(resale, EngineMaterial(v, prices)), key)
         else if Rank(key) < 5 then Lookup(MaterialEntries(v, prices, ratios), key)
         else if Rank(key) < 6 then Lookup(WheelEntries(prices), key)
         else if Rank(key) < 8 then Lookup(SpecialEntries(SpecialItems, ps), key)
         else Lookup(TransportEntries(custom), key)
  {
    var a := HeadEntries(resale, EngineMaterial(v, prices));
    var m := MaterialEntries(v, prices, ratios);
    var w := WheelEntries(prices);
    var s := SpecialEntries(SpecialItems, ps);
    var t := TransportEntries(custom);
    PieceRanks(v, resale, ps, prices, ratios, custom);
    LookupAppend(a + m + w + s, t, key);
    LookupAppend(a + m + w, s, key);
    LookupAppend(a + m, w, key);
    LookupAppend(a, m, key);
    RanksConcat(a, m, 0, 2, 5);
    RanksConcat(a + m, w, 0, 5, 6);
    RanksConcat(a + m + w, s, 0, 6, 8);
    if Rank(key) >= 2 { AbsentByRank(a, key, 0, 2); }
    if Rank(key) >= 5 { AbsentByRank(a + m, key, 0, 5); }
    if Rank(key) >= 6 { AbsentByRank(a + m + w, key, 0, 6); }
    if Rank(key) >= 8 { AbsentByRank(a + m + w + s, key, 0, 8); }
    if Rank(key) < 2 { AbsentByRank(m, key, 2, 5); }
    if Rank(key) < 5 { AbsentByRank(w, key, 5, 6); }
    if Rank(key) < 6 { AbsentByRank(s, key, 6, 8); }
    if Rank(key) < 8 { AbsentByRank(t, key, 8, 9); }
  }

  /** The resale marker is "〇" exactly when the engine resale price is
      positive, whichever engine value was counted; the engine entry is the
      larger of resale and material value. */
  lemma EngineRule(code: string, vehicles: seq<Vehicle>, catalog: seq<ComponentValue>,
                   defaults: map<string, real>, ratios: map<string, real>, custom: Option<map<string, real>>)
    requires Estimate(code, vehicles, catalog, defaults, ratios, custom).Ok?
    requires FindVehicle(vehicles, code).Some?
    ensures var b := Estimate(code, vehicles, catalog, defaults, ratios, custom).value.breakdown;
      var v := FindVehicle(vehicles, code).value;
      var resale := EngineResale(catalog, defaults, v);
      var material := EngineMaterial(v, Merge(defaults, custom));
      && (Lookup(b, ResaleMarker) == Some(Mark(Sold)) <==> resale > 0.0)
      && (Lookup(b, ResaleMarker) == Some(Mark(NotSold)) <==> resale <= 0.0)
      && Lookup(b, Engine) == Some(Amount(if resale > material then resale else material))
  {
    var v := FindVehicle(vehicles, code).value;
    var resale := EngineResale(catalog, defaults, v);
    var ps := SpecialPrices(catalog, defaults, v);
    var prices := Merge(defaults, custom);
    KnownReport(code, vehicles, catalog, defaults, ratios, custom);
    LookupByPiece(v, resale, ps, prices, ratios, custom.value, ResaleMarker);
    LookupByPiece(v, resale, ps, prices, ratios, custom.value, Engine);
    var a := HeadEntries(resale, EngineMaterial(v, prices));
    assert a[1..] == [a[1]];
  }

  /** The engine's material value is 0 without a total weight, its recorded
      weight times the per-kg price when it has one, and otherwise 15% of
      the total weight times that price, in which case (and only then) the
      estimation remark is made. */
  lemma EngineMaterialRule(v: Vehicle, prices: map<string, real>)
    requires Given(v.total_weight_kg) ==> "engine_per_kg" in prices
    ensures !Given(v.total_weight_kg) ==> EngineMaterial(v, prices) == 0.0
    ensures Given(v.total_weight_kg) && Given(v.engine_weight_kg) ==>
      EngineMaterial(v, prices) == v.engine_weight_kg.value * prices["engine_per_kg"]
    ensures Given(v.total_weight_kg) && !Given(v.engine_weight_kg) ==>
      EngineMaterial(v, prices) == 0.15 * v.total_weight_kg.value * prices["engine_per_kg"]
    ensures EstimatedRemark in RemarksOf(v) <==> Given(v.total_weight_kg) && !Given(v.engine_weight_kg)
    ensures |RemarksOf(v)| <= 1
  {
  }

  lemma MaterialLookups(v: Vehicle, prices: map<string, real>, ratios: map<string, real>)
    requires KeysPresent(v, prices, ratios)
    ensures var m := MaterialEntries(v, prices, ratios);
      && (Given(v.total_weight_kg) ==>
            && Lookup(m, Press) == Some(Amount(MaterialAmount(v.total_weight_kg.value, ratios["press"], prices["press_per_kg"])))
            && Lookup(m, Kouzan) == Some(Amount(MaterialAmount(v.total_weight_kg.value, ratios["kouzan"], prices["kouzan_per_kg"])))
            && Lookup(m, Harness) == Some(Amount(MaterialAmount(v.total_weight_kg.value, ratios["harness"], prices["harness_per_kg"]))))
      && (!Given(v.total_weight_kg) ==>
            Lookup(m, Press).None? && Lookup(m, Kouzan).None? && Lookup(m, Harness).None?)
  {
    if Given(v.total_weight_kg) {
      var m := MaterialEntries(v, prices, ratios);
      assert m[0].value == Amount(MaterialAmount(v.total_weight_kg.value, ratios["press"], prices["press_per_kg"]));
      assert Lookup(m, Press) == Some(m[0].value);
      assert m[1].value == Amount(MaterialAmount(v.total_weight_kg.value, ratios["kouzan"], prices["kouzan_per_kg"]));
      assert m[2].value == Amount(MaterialAmount(v.total_weight_kg.value, ratios["harness"], prices["harness_per_kg"]));
      assert m[1..][0] == m[1] && m[1..][1..][0] == m[2];
      assert Lookup(m, Kouzan) == Lookup(m[1..], Kouzan) == Some(m[1].value);
      assert Lookup(m, Harness) == Lookup(m[1..][1..], Harness) == Some(m[2].value);
    }
  }

  lemma MaterialInBreakdown(v: Vehicle, resale: real, ps: seq<real>, prices: map<string, real>,
                            ratios: map<string, real>, custom: map<string, real>)
    requires KeysPresent(v, prices, ratios) && |ps| == |SpecialItems|
    ensures var b := BreakdownOf(v, resale, ps, prices, ratios, custom);
      && (Given(v.total_weight_kg) ==>
            && Lookup(b, Press) == Some(Amount(MaterialAmount(v.total_weight_kg.value, ratios["press"], prices["press_per_kg"])))
            && Lookup(b, Kouzan) == Some(Amount(MaterialAmount(v.total_weight_kg.value, ratios["kouzan"], prices["kouzan_per_kg"])))
            && Lookup(b, Harness) == Some(Amount(MaterialAmount(v.total_weight_kg.value, ratios["harness"], prices["harness_per_kg"]))))
      && (!Given(v.total_weight_kg) ==>
            Lookup(b, Press).None? && Lookup(b, Kouzan).None? && Lookup(b, Harness).None?)
  {
    LookupByPiece(v, resale, ps, prices, ratios, custom, Press);
    LookupByPiece(v, resale, ps, prices, ratios, custom, Kouzan);
    LookupByPiece(v, resale, ps, prices, ratios, custom, Harness);
    MaterialLookups(v, prices, ratios);
  }

  /** The material entries appear only with a total weight, each the total
      weight times its ratio times its per-kg price, and then
      `calculate_material_value` is their sum. */
  lemma MaterialValueIsEntrySum(code: string, vehicles: seq<Vehicle>, catalog: seq<ComponentValue>,
                                defaults: map<string, real>, ratios: map<string, real>, custom: Option<map<string, real>>)
    requires Estimate(code, vehicles, catalog, defaults, ratios, custom).Ok?
    requires FindVehicle(vehicles, code).Some?
    ensures var b := Estimate(code, vehicles, catalog, defaults, ratios, custom).value.breakdown;
      var v := FindVehicle(vehicles, code).value;
      var prices := Merge(defaults, custom);
      var mv := CalculateMaterialValue(v, prices, ratios);
      && (Lookup(b, Press).Some? <==> Given(v.total_weight_kg))
      && (Given(v.total_weight_kg) ==>
            && Lookup(b, Press) == Some(Amount(MaterialAmount(v.total_weight_kg.value, ratios["press"], prices["press_per_kg"])))
            && Lookup(b, Kouzan) == Some(Amount(MaterialAmount(v.total_weight_kg.value, ratios["kouzan"], prices["kouzan_per_kg"])))
            && Lookup(b, Harness) == Some(Amount(MaterialAmount(v.total_weight_kg.value, ratios["harness"], prices["harness_per_kg"])))
            && mv == Ok(Lookup(b, Press).value.x + Lookup(b, Kouzan).value.x + Lookup(b, Harness).value.x))
      && (!Given(v.total_weight_kg) ==> mv == Ok(0.0) && Lookup(b, Kouzan).None? && Lookup(b, Harness).None?)
  {
    KnownReport(code, vehicles, catalog, defaults, ratios, custom);
    MaterialInBreakdown(FindVehicle(vehicles, code).value, EngineResale(catalog, defaults, FindVehicle(vehicles, code).value),
                        SpecialPrices(catalog, defaults, FindVehicle(vehicles, code).value), Merge(defaults, custom), ratios, custom.value);
    if Given(FindVehicle(vehicles, code).value.total_weight_kg) {
      assert PriceOr0(Merge(defaults, custom), "press_per_kg") == Merge(defaults, custom)["press_per_kg"];
      assert PriceOr0(Merge(defaults, custom), "kouzan_per_kg") == Merge(defaults, custom)["kouzan_per_kg"];
      assert PriceOr0(Merge(defaults, custom), "harness_per_kg") == Merge(defaults, custom)["harness_per_kg"];
    }
  }

  lemma SpecialLookups(ps: seq<real>)
    requires |ps| == |SpecialItems|
    ensures forall i :: 0 <= i < |SpecialItems| ==>
      Lookup(SpecialEntries(SpecialItems, ps), Special(SpecialItems[i]))
        == if ps[i] > 0.0 then Some(Amount(ps[i])) else None
  {
    SpecialEntriesExpand(ps);
    var c := if ps[0] > 0.0 then [Entry(Special("Catalyst"), Amount(ps[0]))] else [];
    var h := if ps[1] > 0.0 then [Entry(Special("Hybrid Battery"), Amount(ps[1]))] else [];
    LookupAppend(c, h, Special("Catalyst"));
    LookupAppend(c, h, Special("Hybrid Battery"));
  }

  /** Wheels are always added, at the price of the merged table. */
  lemma WheelsAlwaysAdded(code: string, vehicles: seq<Vehicle>, catalog: seq<ComponentValue>,
                          defaults: map<string, real>, ratios: map<string, real>, custom: Option<map<string, real>>)
    requires Estimate(code, vehicles, catalog, defaults, ratios, custom).Ok?
    requires FindVehicle(vehicles, code).Some?
    ensures "aluminum_wheels_price" in Merge(defaults, custom)
    ensures Lookup(Estimate(code, vehicles, catalog, defaults, ratios, custom).value.breakdown, Wheels)
      == Some(Amount(Merge(defaults, custom)["aluminum_wheels_price"]))
  {
    var v := FindVehicle(vehicles, code).value;
    KnownReport(code, vehicles, catalog, defaults, ratios, custom);
    TailLookups(v, EngineResale(catalog, defaults, v), SpecialPrices(catalog, defaults, v),
                Merge(defaults, custom), ratios, custom.value);
  }

  /** Each special item appears exactly when its price, resolved against
      the static table, is positive, and then with that price. */
  lemma SpecialItemsByPrice(code: string, vehicles: seq<Vehicle>, catalog: seq<ComponentValue>,
                            defaults: map<string, real>, ratios: map<string, real>, custom: Option<map<string, real>>)
    requires Estimate(code, vehicles, catalog, defaults, ratios, custom).Ok?
    requires FindVehicle(vehicles, code).Some?
    ensures var b := Estimate(code, vehicles, catalog, defaults, ratios, custom).value.breakdown;
      var v := FindVehicle(vehicles, code).value;
      forall i :: 0 <= i < |SpecialItems| ==>
        var p := ComponentPrice(catalog, defaults, SpecialItems[i], v);
        Lookup(b, Special(SpecialItems[i])) == if p > 0.0 then Some(Amount(p)) else None
  {
    var v := FindVehicle(vehicles, code).value;
    var ps := SpecialPrices(catalog, defaults, v);
    KnownReport(code, vehicles, catalog, defaults, ratios, custom);
    TailLookups(v, EngineResale(catalog, defaults, v), ps, Merge(defaults, custom), ratios, custom.value);
  }

  /** A positive transport cost from the custom table is deducted as one
      negative entry; otherwise there is no transport entry. */
  lemma TransportDeducted(code: string, vehicles: seq<Vehicle>, catalog: seq<ComponentValue>,
                          defaults: map<string, real>, ratios: map<string, real>, custom: Option<map<string, real>>)
    requires Estimate(code, vehicles, catalog, defaults, ratios, custom).Ok?
    requires FindVehicle(vehicles, code).Some?
    ensures custom.Some?
    ensures var t := TransportCost(custom.value);
      Lookup(Estimate(code, vehicles, catalog, defaults, ratios, custom).value.breakdown, Transport)
        == if t > 0.0 then Some(Amount(-t)) else None
  {
    var v := FindVehicle(vehicles, code).value;
    KnownBreakdown(code, vehicles, catalog, defaults, ratios, custom);
    TailLookups(v, EngineResale(catalog, defaults, v), SpecialPrices(catalog, defaults, v),
                Merge(defaults, custom), ratios, custom.value);
  }

  /** The wheel, special-item and transport entries of a breakdown. */
  lemma TailLookups(v: Vehicle, resale: real, ps: seq<real>, prices: map<string, real>,
                    ratios: map<string, real>, custom: map<string, real>)
    requires KeysPresent(v, prices, ratios) && |ps| == |SpecialItems|
    ensures var b := BreakdownOf(v, resale, ps, prices, ratios, custom);
      var t := TransportCost(custom);
      && Lookup(b, Wheels) == Some(Amount(prices["aluminum_wheels_price"]))
      && (forall i :: 0 <= i < |SpecialItems| ==>
            Lookup(b, Special(SpecialItems[i])) == if ps[i] > 0.0 then Some(Amount(ps[i])) else None)
      && Lookup(b, Transport) == if t > 0.0 then Some(Amount(-t)) else None
  {
    LookupByPiece(v, resale, ps, prices, ratios, custom, Wheels);
    LookupByPiece(v, resale, ps, prices, ratios, custom, Transport);
    LookupByPiece(v, resale, ps, prices, ratios, custom, Special(SpecialItems[0]));
    LookupByPiece(v, resale, ps, prices, ratios, custom, Special(SpecialItems[1]));
    SpecialLookups(ps);
  }

  /** A custom price table changes neither which special items appear nor
      their values: they read only the static table. */
  lemma SpecialsIgnoreCustomPrices(code: string, vehicles: seq<Vehicle>, catalog: seq<ComponentValue>,
                                   defaults: map<string, real>, ratios: map<string, real>,
                                   c1: map<string, real>, c2: map<string, real>)
    requires Estimate(code, vehicles, catalog, defaults, ratios, Some(c1)).Ok?
    requires Estimate(code, vehicles, catalog, defaults, ratios, Some(c2)).Ok?
    ensures forall i :: 0 <= i < |SpecialItems| ==>
      Lookup(Estimate(code, vehicles, catalog, defaults, ratios, Some(c1)).value.breakdown, Special(SpecialItems[i]))
        == Lookup(Estimate(code, vehicles, catalog, defaults, ratios, Some(c2)).value.breakdown, Special(SpecialItems[i]))
  {
    if FindVehicle(vehicles, code).Some? {
      SpecialItemsByPrice(code, vehicles, catalog, defaults, ratios, Some(c1));
      SpecialItemsByPrice(code, vehicles, catalog, defaults, ratios, Some(c2));
    }
  }

  // ---------------------------------------------------------------------
  // The valuation as the source computes it

  /** A known vehicle's valuation stops at the first key it does not find. */
  lemma MissingKeyFails(code: string, vehicles: seq<Vehicle>, catalog: seq<ComponentValue>,
                        defaults: map<string, real>, ratios: map<string, real>,
                        custom: Option<map<string, real>>, key: string)
    requires FindVehicle(vehicles, code).Some?
    requires MissingKey(FindVehicle(vehicles, code).value, Merge(defaults, custom), ratios) == Some(key)
    ensures Estimate(code, vehicles, catalog, defaults, ratios, custom) == Err(KeyError(key))
  {
  }

  /** The engine, weight-based and wheel part of `estimate_scrap_value`:
      the entries and the running total up to the special items, or the
      first key looked up and not found. */
  method ValueEngineAndWeight(v: Vehicle, prices: map<string, real>, ratios: map<string, real>, resale: real)
    returns (missing: Option<string>, breakdown: seq<Entry<Key>>, total: real, remarks: seq<string>)
    ensures missing == MissingKey(v, prices, ratios)
    ensures missing.None? ==>
      && breakdown == HeadEntries(resale, EngineMaterial(v, prices)) + MaterialEntries(v, prices, ratios) + WheelEntries(prices)
      && total == Max(resale, EngineMaterial(v, prices)) + CalculateMaterialValue(v, prices, ratios).value
                  + prices["aluminum_wheels_price"]
      && remarks == RemarksOf(v)
  {
    breakdown, total, remarks := [], 0.0, [];
    var material := 0.0;
    if Given(v.total_weight_kg) {
      var weight := if Given(v.engine_weight_kg) then v.engine_weight_kg.value
                    else v.total_weight_kg.value * EngineShare;
      if "engine_per_kg" !in prices {
        return Some("engine_per_kg"), breakdown, total, remarks;
      }
      assert weight == EngineWeight(v);
      material := weight * prices["engine_per_kg"];
      if !Given(v.engine_weight_kg) {
        remarks := remarks + [EstimatedRemark];
      }
    }
    if resale > 0.0 {
      breakdown := breakdown + [Entry(ResaleMarker, Mark(Sold))];
    } else {
      breakdown := breakdown + [Entry(ResaleMarker, Mark(NotSold))];
    }
    if resale > material {
      breakdown := breakdown + [Entry(Engine, Amount(resale))];
      total := total + resale;
    } else {
      breakdown := breakdown + [Entry(Engine, Amount(material))];
      total := total + material;
    }

    if Given(v.total_weight_kg) {
      var w := v.total_weight_kg.value;
      if "press" !in ratios { return Some("press"), breakdown, total, remarks; }
      if "press_per_kg" !in prices { return Some("press_per_kg"), breakdown, total, remarks; }
      var press := MaterialAmount(w, ratios["press"], prices["press_per_kg"]);
      if "kouzan" !in ratios { return Some("kouzan"), breakdown, total, remarks; }
      if "kouzan_per_kg" !in prices { return Some("kouzan_per_kg"), breakdown, total, remarks; }
      var kouzan := MaterialAmount(w, ratios["kouzan"], prices["kouzan_per_kg"]);
      if "harness" !in ratios { return Some("harness"), breakdown, total, remarks; }
      if "harness_per_kg" !in prices { return Some("harness_per_kg"), breakdown, total, remarks; }
      var harness := MaterialAmount(w, ratios["harness"], prices["harness_per_kg"]);
      breakdown := breakdown + [Entry(Press, Amount(press))];
      breakdown := breakdown + [Entry(Kouzan, Amount(kouzan))];
      breakdown := breakdown + [Entry(Harness, Amount(harness))];
      total := total + (press + kouzan + harness);
    }

    if "aluminum_wheels_price" !in prices {
      return Some("aluminum_wheels_price"), breakdown, total, remarks;
    }
    assert material == EngineMaterial(v, prices);
    breakdown := breakdown + [Entry(Wheels, Amount(prices["aluminum_wheels_price"]))];
    total := total + prices["aluminum_wheels_price"];
    missing := None;
  }

  /** The loop over the special items: each one priced positively is added
      to the breakdown and to the total. */
  method AddSpecialItems(catalog: seq<ComponentValue>, defaults: map<string, real>, v: Vehicle,
                         breakdown0: seq<Entry<Key>>, total0: real)
    returns (breakdown: seq<Entry<Key>>, total: real)
    ensures breakdown == breakdown0 + SpecialEntries(SpecialItems, SpecialPrices(catalog, defaults, v))
    ensures total == total0 + PositiveSum(SpecialPrices(catalog, defaults, v))
  {
    breakdown, total := breakdown0, total0;
    ghost var ps := SpecialPrices(catalog, defaults, v);
    for i := 0 to |SpecialItems|
      invariant breakdown == breakdown0 + SpecialEntries(SpecialItems[..i], ps[..i])
      invariant total == total0 + PositiveSum(ps[..i])
    {
      assert SpecialItems[..i + 1][..i] == SpecialItems[..i];
      assert ps[..i + 1][..i] == ps[..i];
      var item := SpecialItems[i];
      var special := ComponentPrice(catalog, defaults, item, v);
      if special > 0.0 {
        breakdown := breakdown + [Entry(Special(item), Amount(special))];
        total := total + special;
      }
    }
    assert SpecialItems[..|SpecialItems|] == SpecialItems;
    assert ps[..|ps|] == ps;
  }

  /** The deduction of a positive transport cost from the custom prices. */
  method DeductTransport(custom: map<string, real>, breakdown0: seq<Entry<Key>>, total0: real)
    returns (breakdown: seq<Entry<Key>>, total: real)
    ensures breakdown == breakdown0 + TransportEntries(custom)
    ensures total == total0 - (if TransportCost(custom) > 0.0 then TransportCost(custom) else 0.0)
  {
    breakdown, total := breakdown0, total0;
    var transport := if "transport_cost" in custom then custom["transport_cost"] else 0.0;
    if transport > 0.0 {
      breakdown := breakdown + [Entry(Transport, Amount(-transport))];
      total := total - transport;
    }
  }

  /** The valuation of a known vehicle that finds every key and has custom
      prices. */
  lemma KnownEstimate(code: string, vehicles: seq<Vehicle>, catalog: seq<ComponentValue>,
                      defaults: map<string, real>, ratios: map<string, real>,
                      custom: Option<map<string, real>>)
    requires FindVehicle(vehicles, code).Some? && custom.Some?
    requires MissingKey(FindVehicle(vehicles, code).value, Merge(defaults, custom), ratios).None?
    ensures var v := FindVehicle(vehicles, code).value;
      var resale := EngineResale(catalog, defaults, v);
      var ps := SpecialPrices(catalog, defaults, v);
      Estimate(code, vehicles, catalog, defaults, ratios, custom)
        == Ok(Report(v.info, BreakdownOf(v, resale, ps, Merge(defaults, custom), ratios, custom.value),
                     TotalOf(v, resale, ps, Merge(defaults, custom), ratios, custom.value), RemarksOf(v)))
  {
  }

  /** `estimate_scrap_value`, building the breakdown, the total and the
      remarks step by step. */
  method EstimateScrapValue(code: string, vehicles: seq<Vehicle>, catalog: seq<ComponentValue>,
                            defaults: map<string, real>, ratios: map<string, real>,
                            custom: Option<map<string, real>>)
    returns (r: Result<Report, Failure>)
    ensures r == Estimate(code, vehicles, catalog, defaults, ratios, custom)
  {
    var found := FindVehicle(vehicles, code);
    if found.None? {
      return Ok(Report(map["model_code" := Str(code)], [Entry(ResaleMarker, Mark(NotSold))], 0.0, [UnknownRemark]));
    }
    var v := found.value;
    var prices := defaults;
    if custom.Some? {
      prices := prices + custom.value;
    }

    var resale := EngineResale(catalog, defaults, v);
    var missing, breakdown, total, remarks := ValueEngineAndWeight(v, prices, ratios, resale);
    if missing.Some? {
      MissingKeyFails(code, vehicles, catalog, defaults, ratios, custom, missing.value);
      return Err(KeyError(missing.value));
    }
    breakdown, total := AddSpecialItems(catalog, defaults, v, breakdown, total);

    if custom.None? {
      return Err(NoCustomPrices);
    }
    breakdown, total := DeductTransport(custom.value, breakdown, total);
    ghost var ps := SpecialPrices(catalog, defaults, v);
    assert breakdown == BreakdownOf(v, resale, ps, prices, ratios, custom.value);
    assert total == TotalOf(v, resale, ps, prices, ratios, custom.value);
    KnownEstimate(code, vehicles, catalog, defaults, ratios, custom);
    r := Ok(Report(v.info, breakdown, total, remarks));
  }
}

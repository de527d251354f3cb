/** The web API of src/api/main.py: the valuation parameters shown to the
    user, and the analysis of an uploaded auction sheet, which values every
    vehicle row and recommends whether to bid. */
module Api {
  import opened Wrappers
  import opened Store
  import Layout
  import Valuation
  import Pipeline

  // ---------------------------------------------------------------------
  // Parameters

  /** The price keys shown to the user, read from the price table. */
  const PriceKeys: set<string> := {
    "engine_per_kg", "press_per_kg", "kouzan_per_kg", "harness_per_kg",
    "aluminum_wheels_price", "catalyst_price"}

  const TransportCostKey := "transport_cost"

  /** The transport cost is fixed, whatever the price table says. */
  const FixedTransportCost: real := 5000.0

  /** `get_parameters`: each price key with its value in the price table,
      or 0 when the table lacks it, and the fixed transport cost. */
  function GetParameters(prices: map<string, real>): (r: map<string, real>)
    ensures r.Keys == PriceKeys + {TransportCostKey}
    ensures r[TransportCostKey] == FixedTransportCost
    ensures forall k :: k in PriceKeys ==> r[k] == if k in prices then prices[k] else 0.0
  {
    (map k | k in PriceKeys :: if k in prices then prices[k] else 0.0)[TransportCostKey := FixedTransportCost]
  }

  // ---------------------------------------------------------------------
  // Bid recommendation

  const Bid := "〇"
  const Consider := "△"
  const Pass := "×"

  /** The margin, in yen, that separates the three recommendations. */
  const Margin: real := 10000.0

  /** The recommendation for the difference between the estimated value
      and the past auction price: bid from a margin of 10000 up, pass at
      -10000 or below, consider in between. */
  function Recommendation(diff: real): (r: string)
    ensures r == Bid <==> diff >= Margin
    ensures r == Consider <==> -Margin < diff < Margin
    ensures r == Pass <==> diff <= -Margin
  {
    if diff >= Margin then Bid
    else if diff > -Margin then Consider
    else Pass
  }

  /** Exactly one recommendation applies to every difference, and a larger
      difference never gets a weaker one. */
  lemma RecommendationMonotone(d1: real, d2: real)
    requires d1 <= d2
    ensures Recommendation(d1) == Bid ==> Recommendation(d2) == Bid
    ensures Recommendation(d2) == Pass ==> Recommendation(d1) == Pass
    ensures Recommendation(d1) in {Bid, Consider, Pass}
  {
  }

  // ---------------------------------------------------------------------
  // Rows of a sheet

  /** The columns `normalize_text` is applied to. */
  const NormalizedColumns: set<string> := {"maker", "car_name", "model_code"}

  /** A row after `normalize_text` of its maker, car name and model code; a
      value that is not text is left as it is. */
  function NormalizedRow(r: Record, normalize: string -> string): (n: Record)
    ensures n.Keys == r.Keys
    ensures forall k :: k in r && k !in NormalizedColumns ==> n[k] == r[k]
    ensures forall k :: k in r && k in NormalizedColumns ==>
      n[k] == if r[k].Str? then Str(normalize(r[k].s)) else r[k]
  {
    map k | k in r :: if k in NormalizedColumns && r[k].Str? then Str(normalize(r[k].s)) else r[k]
  }

  /** The model code a row is valued with: a non-empty text. */
  function CodeOf(r: Record): (c: Option<string>)
    ensures c.Some? ==> c.value != "" && Get(r, "model_code") == Str(c.value)
  {
    match Get(r, "model_code")
    case Str(s) => if s != "" then Some(s) else None
    case _ => None
  }

  /** For rows read from a sheet, whose cells are text, the code test is
      the source's truthiness test of `row.get('model_code')`. */
  lemma CodeOfTruthy(row: Layout.Row, normalize: string -> string)
    ensures var r := NormalizedRow(Pipeline.ToRecord(row), normalize);
      CodeOf(r).Some? <==> Truthy(Get(r, "model_code"))
  {
  }

  /** The stores and prices every valuation reads. */
  datatype Env = Env(vehicles: seq<Valuation.Vehicle>, catalog: seq<Valuation.ComponentValue>,
                     defaults: map<string, real>, ratios: map<string, real>, params: map<string, real>)

  /** `estimate_scrap_value(model_code, session, custom_prices=params)`. */
  function Valued(env: Env, code: string): Result<Valuation.Report, Valuation.Failure> {
    Valuation.Estimate(code, env.vehicles, env.catalog, env.defaults, env.ratios, Some(env.params))
  }

  /** One result row: the merged record, and the nested parts of the
      valuation (breakdown, remarks, vehicle information), which the
      record also carries under their own keys. */
  datatype Analyzed = Analyzed(record: Record, report: Valuation.Report)

  /** The keys of the valuation whose values are not plain cells. */
  const NestedKeys: set<string> := {"breakdown", "remarks", "vehicle_info"}

  /** `final_record`: the row, updated with the valuation, then with its
      vehicle information, then with the past auction price and the
      recommendation. */
  function Merged(row: Record, rep: Valuation.Report, past: int): Record {
    ((row - NestedKeys)["total_value" := Num(rep.total_value)] + rep.vehicle_info)
      ["past_auction_price" := Num(past as real)]
      ["bidding_recommendation" := Str(Recommendation(rep.total_value - past as real))]
  }

  /** Later sources override earlier ones: the vehicle information over
      the valuation, the valuation over the row. */
  lemma MergedPrecedence(row: Record, rep: Valuation.Report, past: int)
    ensures var m := Merged(row, rep, past);
      && m["past_auction_price"] == Num(past as real)
      && m["bidding_recommendation"] == Str(Recommendation(rep.total_value - past as real))
      && (forall k :: k in rep.vehicle_info && k !in {"past_auction_price", "bidding_recommendation"} ==>
            m[k] == rep.vehicle_info[k])
      && ("total_value" !in rep.vehicle_info ==> m["total_value"] == Num(rep.total_value))
      && (forall k :: (k in row && k !in rep.vehicle_info && k !in NestedKeys
                       && k !in {"total_value", "past_auction_price", "bidding_recommendation"}) ==> m[k] == row[k])
      && m.Keys == (row.Keys - NestedKeys) + rep.vehicle_info.Keys
                   + {"total_value", "past_auction_price", "bidding_recommendation"}
  {
  }

  /** The rows of the sheet that are valued: those with a model code, in
      order. */
  function WithCode(rows: seq<Record>): (r: seq<Record>)
    ensures forall x :: x in r <==> x in rows && CodeOf(x).Some?
    ensures |r| <= |rows|
  {
    if rows == [] then []
    else WithCode(rows[..|rows| - 1]) + (if CodeOf(rows[|rows| - 1]).Some? then [rows[|rows| - 1]] else [])
  }

  /** The loop over the rows: a row without a model code is skipped; every
      other row is valued and takes the next draw as its past auction
      price; the first failing valuation ends the request. */
  function AnalyzeRows(env: Env, rows: seq<Record>, draws: seq<int>): (r: Result<seq<Analyzed>, Valuation.Failure>)
    requires |rows| <= |draws|
    ensures r.Ok? ==> |r.value| == |WithCode(rows)|
  {
    if rows == [] then Ok([])
    else
      var row := rows[|rows| - 1];
      match AnalyzeRows(env, rows[..|rows| - 1], draws)
      case Err(e) => Err(e)
      case Ok(prev) =>
        match CodeOf(row)
        case None => Ok(prev)
        case Some(code) =>
          match Valued(env, code)
          case Err(e) => Err(e)
          case Ok(rep) => Ok(prev + [Analyzed(Merged(row, rep, draws[|prev|]), rep)])
  }

  /** The `k`-th result belongs to the `k`-th row with a model code, valued
      with its code, and uses the `k`-th draw. */
  lemma {:induction false} ResultsFollowRows(env: Env, rows: seq<Record>, draws: seq<int>)
    requires |rows| <= |draws|
    requires AnalyzeRows(env, rows, draws).Ok?
    ensures var r := AnalyzeRows(env, rows, draws).value;
      var w := WithCode(rows);
      forall k :: 0 <= k < |r| ==>
        Valued(env, CodeOf(w[k]).value) == Ok(r[k].report)
        && r[k].record == Merged(w[k], r[k].report, draws[k])
  {
    if rows != [] {
      ResultsFollowRows(env, rows[..|rows| - 1], draws);
    }
  }

  /** A valuation failure on any row with a model code fails the whole
      request. */
  lemma {:induction false} FailureFailsRequest(env: Env, rows: seq<Record>, draws: seq<int>, i: nat)
    requires |rows| <= |draws| && i < |rows|
    requires CodeOf(rows[i]).Some? && Valued(env, CodeOf(rows[i]).value).Err?
    ensures AnalyzeRows(env, rows, draws).Err?
  {
    if i < |rows| - 1 {
      FailureFailsRequest(env, rows[..|rows| - 1], draws, i);
    }
  }

  /** Once a prefix of the rows fails, the request fails with that
      prefix's error. */
  lemma {:induction false} ErrorPersists(env: Env, rows: seq<Record>, draws: seq<int>, m: nat)
    requires m <= |rows| <= |draws|
    requires AnalyzeRows(env, rows[..m], draws).Err?
    ensures AnalyzeRows(env, rows, draws) == AnalyzeRows(env, rows[..m], draws)
  {
    if m < |rows| {
      var front := rows[..|rows| - 1];
      assert front[..m] == rows[..m];
      ErrorPersists(env, front, draws, m);
    } else {
      assert rows[..m] == rows;
    }
  }

  /** Why a request fails: the sheet has no maker column, or a valuation
      fails. */
  datatype ApiError = NoMakerColumn | ValuationFailed(failure: Valuation.Failure)

  /** The whole analysis of a sheet's rows: header lines dropped, the three
      columns normalised, then every row with a model code valued. */
  function AnalyzeSheet(env: Env, sheet: seq<Layout.Row>, normalize: string -> string, draws: seq<int>)
    : Result<seq<Analyzed>, ApiError>
    requires |sheet| <= |draws|
  {
    var all := seq(|sheet|, i requires 0 <= i < |sheet| => Pipeline.ToRecord(sheet[i]));
    if !Pipeline.HasMakerColumn(all) then Err(NoMakerColumn)
    else
      var kept := Pipeline.WithoutHeaders(all);
      var rows := seq(|kept|, i requires 0 <= i < |kept| => NormalizedRow(kept[i], normalize));
      match AnalyzeRows(env, rows, draws)
      case Ok(r) => Ok(r)
      case Err(e) => Err(ValuationFailed(e))
  }

  /** The per-row loop of `analyze_sheet_endpoint`, building the result
      list. */
  method AnalyzeRowsLoop(env: Env, rows: seq<Record>, draws: seq<int>)
    returns (r: Result<seq<Analyzed>, Valuation.Failure>)
    requires |rows| <= |draws|
    ensures r == AnalyzeRows(env, rows, draws)
  {
    var results: seq<Analyzed> := [];
    for n := 0 to |rows|
      invariant AnalyzeRows(env, rows[..n], draws) == Ok(results)
    {
      assert rows[..n + 1][..n] == rows[..n];
      var row := rows[n];
      match CodeOf(row)
      case None =>
      case Some(code) =>
        var valuation := Valued(env, code);
        if valuation.Err? {
          ErrorPersists(env, rows, draws, n + 1);
          return Err(valuation.error);
        }
        var past := draws[|results|];
        results := results + [Analyzed(Merged(row, valuation.value, past), valuation.value)];
    }
    assert rows[..|rows|] == rows;
    r := Ok(results);
  }

  /** `analyze_sheet_endpoint` from the parsed rows to the result list. */
  method AnalyzeSheetRows(env: Env, sheet: seq<Layout.Row>, normalize: string -> string, draws: seq<int>)
    returns (r: Result<seq<Analyzed>, ApiError>)
    requires |sheet| <= |draws|
    ensures r == AnalyzeSheet(env, sheet, normalize, draws)
  {
    var all := seq(|sheet|, i requires 0 <= i < |sheet| => Pipeline.ToRecord(sheet[i]));
    if !Pipeline.HasMakerColumn(all) {
      return Err(NoMakerColumn);
    }
    var kept := Pipeline.WithoutHeaders(all);
    var rows := seq(|kept|, i requires 0 <= i < |kept| => NormalizedRow(kept[i], normalize));
    var results := AnalyzeRowsLoop(env, rows, draws);
    r := match results
      case Ok(v) => Ok(v)
      case Err(e) => Err(ValuationFailed(e));
  }
}

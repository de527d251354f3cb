/** The batch pipeline of src/pipeline.py: the vehicle rows of every
    auction sheet are collected (phase 1), padded with the columns the
    enrichment step would fill (phase 2), and merged into the vehicle
    master with appearance counts, after which every master row is listed
    with its number of recorded sales (phase 3). */
module Pipeline {
  import opened Wrappers
  import opened Store
  import Layout

  // ---------------------------------------------------------------------
  // Phase 1: collect the rows of every sheet
  // ---------------------------------------------------------------------

  /** The column-header line of a sheet, read as a vehicle row. */
  const HeaderMaker: string := "メーカー"

  /** A parsed row as a frame record: every value is text. */
  function ToRecord(row: Layout.Row): (r: Record)
    ensures r.Keys == row.Keys
    ensures forall k :: k in row ==> r[k] == Str(row[k])
  {
    map k | k in row :: Str(row[k])
  }

  /** All rows of the sheets, in file order. */
  function Collected(sheets: seq<seq<Layout.Row>>): seq<Record> {
    if sheets == [] then []
    else Collected(sheets[..|sheets| - 1]) + seq(|sheets[|sheets| - 1]|, i requires 0 <= i < |sheets[|sheets| - 1]| => ToRecord(sheets[|sheets| - 1][i]))
  }

  predicate IsHeaderRow(r: Record) {
    Get(r, "maker") == Str(HeaderMaker)
  }

  /** `df[df['maker'] != 'メーカー']`: the rows that are not column-header
      lines, in order. */
  function WithoutHeaders(rows: seq<Record>): (r: seq<Record>)
    ensures forall x :: x in r <==> x in rows && !IsHeaderRow(x)
    ensures |r| <= |rows|
  {
    if rows == [] then []
    else WithoutHeaders(rows[..|rows| - 1]) + (if IsHeaderRow(rows[|rows| - 1]) then [] else [rows[|rows| - 1]])
  }

  /** The frame has a `maker` column when some row has the key. */
  predicate HasMakerColumn(rows: seq<Record>) {
    exists i :: 0 <= i < |rows| && "maker" in rows[i]
  }

  /** `run_phase1_extract_all_vehicles`: no sheets, or no rows, give an empty
      frame; a frame without a `maker` column fails at the filter
      (`KeyError`); otherwise the rows that are not header lines. */
  function Phase1(sheets: seq<seq<Layout.Row>>): Result<seq<Record>, string> {
    var all := Collected(sheets);
    if sheets == [] || all == [] then Ok([])
    else if !HasMakerColumn(all) then Err("maker")
    else Ok(WithoutHeaders(all))
  }

  /** The result of phase 1 holds exactly the collected rows that are not
      header lines, and with the header lines it accounts for every
      collected row. */
  lemma {:induction false} Phase1Rows(sheets: seq<seq<Layout.Row>>)
    requires Phase1(sheets).Ok?
    ensures forall x :: x in Phase1(sheets).value <==> x in Collected(sheets) && !IsHeaderRow(x)
    ensures |Phase1(sheets).value| + HeaderCount(Collected(sheets)) == |Collected(sheets)|
  {
    if sheets != [] && Collected(sheets) != [] {
      HeaderCountSum(Collected(sheets));
    } else {
      assert Collected(sheets) == [] by {
        if sheets == [] {
          assert Collected(sheets) == [];
        }
      }
    }
  }

  function HeaderCount(rows: seq<Record>): nat {
    if rows == [] then 0
    else HeaderCount(rows[..|rows| - 1]) + (if IsHeaderRow(rows[|rows| - 1]) then 1 else 0)
  }

  lemma {:induction false} HeaderCountSum(rows: seq<Record>)
    ensures |WithoutHeaders(rows)| + HeaderCount(rows) == |rows|
  {
    if rows != [] {
      HeaderCountSum(rows[..|rows| - 1]);
    }
  }

  /** Phase 1 as the loop over the sheet files, extending the row list. */
  method ExtractAllVehicles(sheets: seq<seq<Layout.Row>>) returns (r: Result<seq<Record>, string>)
    ensures r == Phase1(sheets)
  {
    if sheets == [] {
      return Ok([]);
    }
    var all: seq<Record> := [];
    for n := 0 to |sheets|
      invariant all == Collected(sheets[..n])
    {
      assert sheets[..n + 1][..n] == sheets[..n];
      all := all + seq(|sheets[n]|, i requires 0 <= i < |sheets[n]| => ToRecord(sheets[n][i]));
    }
    assert sheets[..|sheets|] == sheets;
    if all == [] {
      return Ok([]);
    }
    if !HasMakerColumn(all) {
      return Err("maker");
    }
    r := Ok(WithoutHeaders(all));
  }

  // ---------------------------------------------------------------------
  // Phase 2: pad the enrichment columns
  // ---------------------------------------------------------------------

  /** The columns the enrichment step would fill. */
  const EnrichedColumns: set<string> := {"weight_kg", "engine_model", "catalyst_model"}

  /** A frame of records whose columns are assigned in place. */
  class Frame {
    var rows: seq<Record>

    constructor (rows0: seq<Record>)
      ensures rows == rows0
    {
      rows := rows0;
    }

    /** `run_phase2_enrich_data`: `weight_kg`, `engine_model` and
        `catalyst_model` are set to `None` in every row; nothing else
        changes. */
    method EnrichData()
      modifies this
      ensures |rows| == |old(rows)|
      ensures forall i :: 0 <= i < |rows| ==> rows[i].Keys == old(rows)[i].Keys + EnrichedColumns
      ensures forall i, k :: 0 <= i < |rows| && k in EnrichedColumns ==> rows[i][k] == Null
      ensures forall i, k :: 0 <= i < |rows| && k in old(rows)[i] && k !in EnrichedColumns ==> rows[i][k] == old(rows)[i][k]
    {
      rows := seq(|rows|, i requires 0 <= i < |rows| reads this =>
        rows[i]["weight_kg" := Null]["engine_model" := Null]["catalyst_model" := Null]);
    }
  }

  // ---------------------------------------------------------------------
  // Phase 3: merge into the vehicle master
  // ---------------------------------------------------------------------

  /** A vehicle-master row; the optional attributes hold whatever the frame
      carried, `None` included. */
  datatype Master = Master(
    maker: Scalar,
    car_name: Scalar,
    model_code: string,
    appearance_count: int,
    year: Scalar,
    grade: Scalar,
    weight_kg: Scalar,
    engine_model: Scalar,
    catalyst_model: Scalar)

  /** The appearance key of a frame row. */
  predicate SameVehicle(a: Record, b: Record) {
    Get(a, "maker") == Get(b, "maker") && Get(a, "car_name") == Get(b, "car_name")
    && Get(a, "model_code") == Get(b, "model_code")
  }

  /** `groupby(['maker', 'car_name', 'model_code']).size()` merged onto a
      record: the number of collected rows with the record's key. */
  function AppearanceCount(all: seq<Record>, rec: Record): (n: nat)
    ensures n <= |all|
  {
    if all == [] then 0
    else AppearanceCount(all[..|all| - 1], rec) + (if SameVehicle(all[|all| - 1], rec) then 1 else 0)
  }

  /** A non-empty text model code: the records phase 3 writes. The source
      writes every truthy code; on a text or missing code the two tests
      agree (`CodeOfTruthy`). */
  function CodeOf(rec: Record): (r: Option<string>)
    ensures r.Some? <==> Get(rec, "model_code").Str? && Truthy(Get(rec, "model_code"))
    ensures r.Some? ==> r.value == Get(rec, "model_code").s
  {
    match Get(rec, "model_code")
    case Str(s) => if s != "" then Some(s) else None
    case _ => None
  }

  /** The model code is text or missing, as in every row the parser
      produces. */
  predicate TextCode(rec: Record) {
    Get(rec, "model_code").Str? || Get(rec, "model_code").Null?
  }

  /** On such a record the code test is the source's `not model_code`. */
  lemma CodeOfTruthy(rec: Record)
    requires TextCode(rec)
    ensures CodeOf(rec).Some? <==> Truthy(Get(rec, "model_code"))
  {
  }

  /** Every collected row has a text or missing model code. */
  lemma {:induction false} CollectedCodesText(sheets: seq<seq<Layout.Row>>)
    ensures forall x :: x in Collected(sheets) ==> TextCode(x)
  {
    if sheets != [] {
      CollectedCodesText(sheets[..|sheets| - 1]);
      var last := sheets[|sheets| - 1];
      var recs := seq(|last|, i requires 0 <= i < |last| => ToRecord(last[i]));
      forall x | x in recs
        ensures TextCode(x)
      {
        var i :| 0 <= i < |last| && recs[i] == x;
        assert "model_code" in x ==> x["model_code"] == Str(last[i]["model_code"]);
      }
    }
  }

  /** Phase 1 only yields rows with a text or missing model code, so on
      the frame the pipeline builds `CodeOf` is the source's test. */
  lemma Phase1CodesText(sheets: seq<seq<Layout.Row>>)
    requires Phase1(sheets).Ok?
    ensures forall x :: x in Phase1(sheets).value ==> TextCode(x) && (CodeOf(x).Some? <==> Truthy(Get(x, "model_code")))
  {
    Phase1Rows(sheets);
    CollectedCodesText(sheets);
    forall x | x in Phase1(sheets).value
      ensures CodeOf(x).Some? <==> Truthy(Get(x, "model_code"))
    {
      CodeOfTruthy(x);
    }
  }

  /** The position of the master row with this code. */
  function Position(rows: seq<Master>, code: string): (r: Option<nat>)
    ensures r.Some? ==> r.value < |rows| && rows[r.value].model_code == code
    ensures r.None? ==> forall i :: 0 <= i < |rows| ==> rows[i].model_code != code
  {
    if rows == [] then None
    else if rows[|rows| - 1].model_code == code then Some(|rows| - 1)
    else Position(rows[..|rows| - 1], code)
  }

  /** Model codes are unique in the vehicle master. */
  predicate UniqueCodes(rows: seq<Master>) {
    forall i, j :: 0 <= i < j < |rows| ==> rows[i].model_code != rows[j].model_code
  }

  /** An existing row seen again: its count grows by the record's count and
      its descriptive attributes are overwritten, with `None` when the
      record has no value. */
  function Refreshed(m: Master, rec: Record, n: nat): Master {
    m.(appearance_count := m.appearance_count + n,
       weight_kg := Get(rec, "weight_kg"), engine_model := Get(rec, "engine_model"),
       catalyst_model := Get(rec, "catalyst_model"), year := Get(rec, "year"), grade := Get(rec, "grade"))
  }

  /** `VehicleMaster(**record)` with the record's count. */
  function Created(rec: Record, code: string, n: nat): Master {
    Master(Get(rec, "maker"), Get(rec, "car_name"), code, n, Get(rec, "year"), Get(rec, "grade"),
           Get(rec, "weight_kg"), Get(rec, "engine_model"), Get(rec, "catalyst_model"))
  }

  /** One record of the merge. */
  function Merged(rows: seq<Master>, rec: Record, n: nat): seq<Master> {
    match CodeOf(rec)
    case None => rows
    case Some(code) =>
      match Position(rows, code)
      case Some(i) => rows[i := Refreshed(rows[i], rec, n)]
      case None => rows + [Created(rec, code, n)]
  }

  /** The merge loop over the records of the enriched frame. */
  function MergedAll(rows: seq<Master>, all: seq<Record>, recs: seq<Record>): seq<Master> {
    if recs == [] then rows
    else
      var last := recs[|recs| - 1];
      Merged(MergedAll(rows, all, recs[..|recs| - 1]), last, AppearanceCount(all, last))
  }

  /** The appearance count stored for a code, 0 without a row. */
  function StoredCount(rows: seq<Master>, code: string): int {
    match Position(rows, code)
    case Some(i) => rows[i].appearance_count
    case None => 0
  }

  /** The counts the records with this code bring. */
  function CountsFor(all: seq<Record>, recs: seq<Record>, code: string): nat {
    if recs == [] then 0
    else CountsFor(all, recs[..|recs| - 1], code)
         + (if CodeOf(recs[|recs| - 1]) == Some(code) then AppearanceCount(all, recs[|recs| - 1]) else 0)
  }

  /** One record keeps the codes unique; it adds its count to its own code's
      row, creating the row when the code is new, and leaves every other
      row alone. */
  lemma MergedStep(rows: seq<Master>, rec: Record, n: nat)
    requires UniqueCodes(rows)
    ensures var r := Merged(rows, rec, n);
      && UniqueCodes(r)
      && (forall code :: StoredCount(r, code) == StoredCount(rows, code) + (if CodeOf(rec) == Some(code) then n else 0))
      && (forall i :: 0 <= i < |rows| && CodeOf(rec) != Some(rows[i].model_code) ==> r[i] == rows[i])
      && (forall i :: 0 <= i < |rows| ==> r[i].model_code == rows[i].model_code)
  {
    var r := Merged(rows, rec, n);
    forall code
      ensures StoredCount(r, code) == StoredCount(rows, code) + (if CodeOf(rec) == Some(code) then n else 0)
    {
      PositionUnique(rows, code);
      PositionUnique(r, code);
    }
  }

  /** A record without a truthy text model code changes nothing; one whose
      code is stored overwrites that row's descriptive attributes, `None`
      included, and keeps its maker and car name; one with a new code adds
      one row. */
  lemma MergedFields(rows: seq<Master>, rec: Record, n: nat)
    requires UniqueCodes(rows)
    ensures var r := Merged(rows, rec, n);
      && (CodeOf(rec).None? ==> r == rows)
      && (forall i :: 0 <= i < |rows| && CodeOf(rec) == Some(rows[i].model_code) ==>
            && r[i].maker == rows[i].maker && r[i].car_name == rows[i].car_name
            && r[i].weight_kg == Get(rec, "weight_kg") && r[i].engine_model == Get(rec, "engine_model")
            && r[i].catalyst_model == Get(rec, "catalyst_model")
            && r[i].year == Get(rec, "year") && r[i].grade == Get(rec, "grade"))
      && |r| == |rows| + (if CodeOf(rec).Some? && Position(rows, CodeOf(rec).value).None? then 1 else 0)
  {
    if CodeOf(rec).Some? {
      PositionUnique(rows, CodeOf(rec).value);
    }
  }

  /** Where codes are unique, the row carrying a code is the one `Position`
      finds. */
  lemma PositionUnique(rows: seq<Master>, code: string)
    requires UniqueCodes(rows)
    ensures forall i :: 0 <= i < |rows| && rows[i].model_code == code ==> Position(rows, code) == Some(i)
  {
  }

  /** Over the whole merge, each code's stored appearance count grows by the
      counts of exactly the records carrying it: an existing code is
      incremented, and a code created by one record is found by every later
      one. */
  lemma {:induction false} MergedCounts(rows: seq<Master>, all: seq<Record>, recs: seq<Record>, code: string)
    requires UniqueCodes(rows)
    ensures UniqueCodes(MergedAll(rows, all, recs))
    ensures StoredCount(MergedAll(rows, all, recs), code) == StoredCount(rows, code) + CountsFor(all, recs, code)
  {
    if recs != [] {
      var front, last := recs[..|recs| - 1], recs[|recs| - 1];
      MergedCounts(rows, all, front, code);
      MergedStep(MergedAll(rows, all, front), last, AppearanceCount(all, last));
    }
  }

  /** The vehicle master as the session holds it. */
  class VehicleTable {
    var rows: seq<Master>

    constructor (rows0: seq<Master>)
      ensures rows == rows0
    {
      rows := rows0;
    }
  }

  /** The `existing_vehicles` dictionary is exact: it holds each stored code
      with the position of its row. */
  ghost predicate IndexExact(index: map<string, nat>, rows: seq<Master>) {
    forall code :: (code in index <==> Position(rows, code).Some?)
                   && (code in index ==> Position(rows, code) == Some(index[code]))
  }

  /** The number of stored sales of a model code. */
  function SalesCount(sales: seq<string>, code: string): (n: nat)
    ensures n <= |sales|
    ensures n == 0 <==> code !in sales
  {
    if sales == [] then 0
    else SalesCount(sales[..|sales| - 1], code) + (if sales[|sales| - 1] == code then 1 else 0)
  }

  /** Every master row with its number of stored sales, 0 when it has none. */
  function FinalOutput(rows: seq<Master>, sales: seq<string>): seq<(Master, nat)> {
    seq(|rows|, i requires 0 <= i < |rows| => (rows[i], SalesCount(sales, rows[i].model_code)))
  }

  /** `{v.model_code: v for v in rows}`, with positions for the rows. */
  function IndexOf(rows: seq<Master>): map<string, nat>
    requires UniqueCodes(rows)
  {
    map i | 0 <= i < |rows| :: rows[i].model_code := i
  }

  lemma IndexOfExact(rows: seq<Master>)
    requires UniqueCodes(rows)
    ensures IndexExact(IndexOf(rows), rows)
  {
    var index := IndexOf(rows);
    forall code
      ensures code in index <==> Position(rows, code).Some?
      ensures code in index ==> Position(rows, code) == Some(index[code])
    {
      PositionUnique(rows, code);
      if code in index {
        var i :| 0 <= i < |rows| && rows[i].model_code == code;
        assert index[code] == i;
      }
      if Position(rows, code).Some? {
        assert rows[Position(rows, code).value].model_code == code;
      }
    }
  }

  /** The dictionary stays exact when a record's row is refreshed in place,
      and when a new code's row is appended and the code added to it. */
  lemma IndexStep(index: map<string, nat>, rows: seq<Master>, rec: Record, n: nat)
    requires UniqueCodes(rows) && IndexExact(index, rows) && CodeOf(rec).Some?
    ensures var code := CodeOf(rec).value;
      IndexExact(if code in index then index else index[code := |rows|], Merged(rows, rec, n))
  {
    var code := CodeOf(rec).value;
    var index' := if code in index then index else index[code := |rows|];
    var r := Merged(rows, rec, n);
    forall c
      ensures c in index' <==> Position(r, c).Some?
      ensures c in index' ==> Position(r, c) == Some(index'[c])
    {
      IndexStepAt(index, rows, rec, n, c);
    }
  }

  /** The index entry of one code after a merge. */
  lemma IndexStepAt(index: map<string, nat>, rows: seq<Master>, rec: Record, n: nat, c: string)
    requires UniqueCodes(rows) && IndexExact(index, rows) && CodeOf(rec).Some?
    ensures var code := CodeOf(rec).value;
      var index' := if code in index then index else index[code := |rows|];
      var r := Merged(rows, rec, n);
      && (c in index' <==> Position(r, c).Some?)
      && (c in index' ==> Position(r, c) == Some(index'[c]))
  {
    var code := CodeOf(rec).value;
    var r := Merged(rows, rec, n);
    MergedStep(rows, rec, n);
    PositionUnique(rows, c);
    PositionUnique(r, c);
    if Position(r, c).Some? {
      assert r[Position(r, c).value].model_code == c;
    }
    if Position(rows, c).Some? {
      assert r[Position(rows, c).value].model_code == c;
    }
    if c == code && code !in index {
      assert r[|rows|].model_code == c;
    }
  }

  /** `run_phase3_update_database`: the stored rows are indexed by code, each
      record of the enriched frame is merged with its appearance count in
      the collected frame, the whole is committed, and the master is listed
      with the sales counts of `sales`, the model codes of the stored sales. */
  method UpdateDatabase(table: VehicleTable, all: seq<Record>, enriched: seq<Record>, sales: seq<string>)
    returns (output: seq<(Master, nat)>)
    requires UniqueCodes(table.rows)
    modifies table
    ensures table.rows == MergedAll(old(table.rows), all, enriched)
    ensures UniqueCodes(table.rows)
    ensures output == FinalOutput(table.rows, sales)
  {
    var index: map<string, nat> := IndexOf(table.rows);
    IndexOfExact(table.rows);
    ghost var rows0 := table.rows;
    for n := 0 to |enriched|
      invariant table.rows == MergedAll(rows0, all, enriched[..n])
      invariant UniqueCodes(table.rows)
      invariant IndexExact(index, table.rows)
    {
      assert enriched[..n + 1][..n] == enriched[..n];
      var rec := enriched[n];
      var count := AppearanceCount(all, rec);
      MergedStep(table.rows, rec, count);
      var code := CodeOf(rec);
      if code.None? {
        continue;
      }
      IndexStep(index, table.rows, rec, count);
      if code.value in index {
        var i := index[code.value];
        table.rows := table.rows[i := Refreshed(table.rows[i], rec, count)];
      } else {
        table.rows := table.rows + [Created(rec, code.value, count)];
        index := index[code.value := |table.rows| - 1];
      }
    }
    assert enriched[..|enriched|] == enriched;
    output := FinalOutput(table.rows, sales);
  }
}

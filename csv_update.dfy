/** `update_from_csv.py`: vehicle-master rows are patched from a CSV file,
    one record per row, matched by `id`; empty cells and unknown columns
    leave a field as it is, and `id` is never written. */
module CsvUpdate {
  import opened Wrappers
  import opened Store

  /** The attributes of a vehicle-master row. */
  const Attributes: set<string> := {
    "id", "maker", "car_name", "model_code", "appearance_count", "year", "grade",
    "weight_kg", "engine_model", "catalyst_model", "created_at", "updated_at"}

  /** A vehicle row: its attributes by name. */
  type Vehicle = Record

  /** Every stored row has exactly the vehicle attributes and carries its own
      key as its `id`. */
  predicate WellFormed(rows: map<int, Vehicle>) {
    forall id :: id in rows ==> rows[id].Keys == Attributes && rows[id]["id"] == Num(id as real)
  }

  /** `filter_by(id=target_id).first()`: a number equal to a stored id finds
      that row; NaN, text and a missing value find nothing. */
  function Lookup(ids: set<int>, target: Scalar): (r: Option<int>)
    ensures r.Some? ==> r.value in ids && target == Num(r.value as real)
    ensures r.None? ==> forall id :: id in ids ==> target != Num(id as real)
  {
    if target.Num? && target.x.Floor as real == target.x && target.x.Floor in ids then Some(target.x.Floor)
    else None
  }

  /** The inner loop over the record's columns, in file order: a column is
      written when it is not `id`, names an attribute of the row and holds a
      value. */
  function Patch(v: Vehicle, rec: Record, columns: seq<string>): (r: Vehicle)
    ensures r.Keys == v.Keys
    ensures forall k :: k in v ==>
      r[k] == if k != "id" && k in columns && NotNa(Get(rec, k)) then Get(rec, k) else v[k]
  {
    if columns == [] then v
    else
      var prev := Patch(v, rec, columns[..|columns| - 1]);
      var c := columns[|columns| - 1];
      if c != "id" && c in prev && NotNa(Get(rec, c)) then prev[c := Get(rec, c)] else prev
  }

  /** Patching twice with the same record changes nothing more. */
  lemma PatchIdempotent(v: Vehicle, rec: Record, columns: seq<string>)
    ensures Patch(Patch(v, rec, columns), rec, columns) == Patch(v, rec, columns)
  {
    var once := Patch(v, rec, columns);
    var twice := Patch(once, rec, columns);
    assert twice.Keys == once.Keys;
    forall k | k in once
      ensures twice[k] == once[k]
    {
    }
  }

  datatype Run = Run(rows: map<int, Vehicle>, updated: nat, notFound: nat)

  /** The record loop over `recs`, in order: a found row takes the patch
      and counts as updated; otherwise the record counts as not found. */
  function RunSpec(rows: map<int, Vehicle>, columns: seq<string>, recs: seq<Record>): (r: Run)
    ensures r.rows.Keys == rows.Keys
    ensures r.updated + r.notFound == |recs|
  {
    if recs == [] then Run(rows, 0, 0)
    else
      var prev := RunSpec(rows, columns, recs[..|recs| - 1]);
      var rec := recs[|recs| - 1];
      match Lookup(prev.rows.Keys, Get(rec, "id"))
      case Some(id) => prev.(rows := prev.rows[id := Patch(prev.rows[id], rec, columns)], updated := prev.updated + 1)
      case None => prev.(notFound := prev.notFound + 1)
  }

  /** The value the run leaves in attribute `k` of row `id`: that of the
      last record naming the row with a value in a written column `k`. */
  function LastWrite(ids: set<int>, columns: seq<string>, recs: seq<Record>, id: int, k: string): Option<Scalar> {
    if recs == [] then None
    else
      var rec := recs[|recs| - 1];
      if Lookup(ids, Get(rec, "id")) == Some(id) && k != "id" && k in columns && NotNa(Get(rec, k)) then Some(Get(rec, k))
      else LastWrite(ids, columns, recs[..|recs| - 1], id, k)
  }

  /** Each attribute of each row ends with the last value the file gives it,
      or keeps its value: null cells, unknown columns and `id` never
      change a field. */
  lemma {:induction false} RunFields(rows: map<int, Vehicle>, columns: seq<string>, recs: seq<Record>)
    ensures var r := RunSpec(rows, columns, recs).rows;
      (forall id :: id in rows ==> r[id].Keys == rows[id].Keys)
      && forall id, k :: id in rows && k in rows[id] ==>
        r[id][k] == match LastWrite(rows.Keys, columns, recs, id, k)
                       case Some(x) => x
                       case None => rows[id][k]
  {
    if recs != [] {
      RunFields(rows, columns, recs[..|recs| - 1]);
    }
  }

  /** The run keeps every row well formed: `id` is never written. */
  lemma RunWellFormed(rows: map<int, Vehicle>, columns: seq<string>, recs: seq<Record>)
    requires WellFormed(rows)
    ensures WellFormed(RunSpec(rows, columns, recs).rows)
  {
    var r := RunSpec(rows, columns, recs).rows;
    RunFields(rows, columns, recs);
    forall id | id in r
      ensures r[id].Keys == Attributes && r[id]["id"] == Num(id as real)
    {
      assert "id" in rows[id];
      assert LastWrite(rows.Keys, columns, recs, id, "id").None? by {
        LastWriteNotId(rows.Keys, columns, recs, id);
      }
    }
  }

  lemma {:induction false} LastWriteNotId(ids: set<int>, columns: seq<string>, recs: seq<Record>, id: int)
    ensures LastWrite(ids, columns, recs, id, "id").None?
  {
    if recs != [] {
      LastWriteNotId(ids, columns, recs[..|recs| - 1], id);
    }
  }

  /** Running the same file a second time leaves the rows as the first run
      left them. */
  lemma RerunChangesNothing(rows: map<int, Vehicle>, columns: seq<string>, recs: seq<Record>)
    ensures var once := RunSpec(rows, columns, recs).rows;
      RunSpec(once, columns, recs).rows == once
  {
    var once := RunSpec(rows, columns, recs).rows;
    var twice := RunSpec(once, columns, recs).rows;
    RunFields(rows, columns, recs);
    RunFields(once, columns, recs);
    assert once.Keys == rows.Keys;
    forall id | id in twice
      ensures twice[id] == once[id]
    {
      forall k | k in once[id]
        ensures twice[id][k] == once[id][k]
      {
        assert k in rows[id];
      }
    }
  }

  /** The table, as the session reads and writes it. */
  class VehicleMasterTable {
    var rows: map<int, Vehicle>

    constructor (rows0: map<int, Vehicle>)
      ensures rows == rows0
    {
      rows := rows0;
    }
  }

  /** A file without an `id` column is refused; an exception during the run
      or the commit is caught and rolled back. */
  datatype Outcome = NoIdColumn | RolledBack | Done(updated: nat, notFound: nat)

  /** The inner loop: the record's columns, in file order, are set on the
      row. */
  method PatchRow(v: Vehicle, rec: Record, columns: seq<string>) returns (vehicle: Vehicle)
    ensures vehicle == Patch(v, rec, columns)
  {
    vehicle := v;
    for j := 0 to |columns|
      invariant vehicle == Patch(v, rec, columns[..j])
    {
      assert columns[..j + 1][..j] == columns[..j];
      var c := columns[j];
      if c != "id" && c in vehicle && NotNa(Get(rec, c)) {
        vehicle := vehicle[c := Get(rec, c)];
      }
    }
    assert columns[..|columns|] == columns;
  }

  /** `update_database_from_csv`: without an `id` column nothing changes;
      otherwise every record is applied through the session and the counts
      are reported. When the commit does not go through (`committed` false)
      the changes are rolled back. */
  method UpdateFromCsv(table: VehicleMasterTable, columns: seq<string>, recs: seq<Record>, committed: bool)
    returns (outcome: Outcome)
    modifies table
    ensures outcome == NoIdColumn <==> "id" !in columns
    ensures outcome.Done? <==> "id" in columns && committed
    ensures table.rows == if outcome.Done? then RunSpec(old(table.rows), columns, recs).rows else old(table.rows)
    ensures outcome.Done? ==>
      var r := RunSpec(old(table.rows), columns, recs);
      outcome.updated == r.updated && outcome.notFound == r.notFound
  {
    if "id" !in columns {
      return NoIdColumn;
    }
    var pre := table.rows;
    var updated, notFound := 0, 0;
    for n := 0 to |recs|
      invariant Run(table.rows, updated, notFound) == RunSpec(pre, columns, recs[..n])
    {
      assert recs[..n + 1][..n] == recs[..n];
      var rec := recs[n];
      match Lookup(table.rows.Keys, Get(rec, "id"))
      case Some(id) =>
        var vehicle := PatchRow(table.rows[id], rec, columns);
        table.rows := table.rows[id := vehicle];
        updated := updated + 1;
      case None =>
        notFound := notFound + 1;
    }
    assert recs[..|recs|] == recs;
    if committed {
      outcome := Done(updated, notFound);
    } else {
      table.rows := pre;
      outcome := RolledBack;
    }
  }
}

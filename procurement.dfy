/** `import_procurement_data.py`: procurement records from a CSV file are
    cleaned and added to the sales history when their chassis number is
    new. */
module Procurement {
  import opened Wrappers
  import opened Text
  import opened Store
  import opened SalesHistory

  /** The renaming as written: the car-name column becomes `maker`, a column
      the sales history does not have. */
  const RenamesAsWritten: Renames := [
    ("引渡報告日", "sale_date"), ("車台番号", "chassis_number"),
    ("型式", "model_code"), ("車名", "maker"),
    ("引渡先事業者／事業所名称", "buyer_name"), ("引渡先事業所所在地", "buyer_location")]

  /** The renaming as intended, as the sales import writes it: the car-name
      column becomes `car_name`. */
  const IntendedRenames: Renames := [
    ("引渡報告日", "sale_date"), ("車台番号", "chassis_number"),
    ("型式", "model_code"), ("車名", "car_name"),
    ("引渡先事業者／事業所名称", "buyer_name"), ("引渡先事業所所在地", "buyer_location")]

  /** The original Japanese headers of a procurement file. */
  const JapaneseHeaders: set<string> := {"引渡報告日", "車台番号", "型式", "車名", "引渡先事業者／事業所名称", "引渡先事業所所在地"}

  /** `.str.split('-').str[-1].str.strip()`: the text after the last
      hyphen, stripped; a cell that is not text becomes NaN. */
  function CleanModelCode(v: Scalar): (r: Scalar)
    ensures !v.Str? ==> r == NaN
    ensures v.Str? ==> r.Str? && forall i :: 0 <= i < |r.s| ==> r.s[i] != '-'
  {
    match v
    case Str(s) => Str(Strip(AfterLast(s, '-')))
    case _ => NaN
  }

  /** A code without hyphens is only stripped. */
  lemma ModelCodeWithoutHyphen(s: string)
    requires forall i :: 0 <= i < |s| ==> s[i] != '-'
    ensures CleanModelCode(Str(s)) == Str(Strip(s))
  {
    AfterLastWhole(s);
  }

  /** With hyphens, everything up to the last one is dropped. */
  lemma ModelCodeAfterHyphen(prefix: string, suffix: string)
    requires forall i :: 0 <= i < |suffix| ==> suffix[i] != '-'
    ensures CleanModelCode(Str(prefix + "-" + suffix)) == Str(Strip(suffix))
  {
    var p := prefix + "-";
    assert AfterLast(p, '-') == [] by {
      assert p != [] && p[|p| - 1] == '-';
    }
    AfterLastAppend(p, suffix);
    assert [] + suffix == suffix;
    assert AfterLast(prefix + "-" + suffix, '-') == suffix;
  }

  lemma {:induction false} AfterLastWhole(s: string)
    requires forall i :: 0 <= i < |s| ==> s[i] != '-'
    ensures AfterLast(s, '-') == s
  {
    if s != [] {
      AfterLastWhole(s[..|s| - 1]);
      assert s[..|s| - 1] + [s[|s| - 1]] == s;
    }
  }

  lemma {:induction false} AfterLastAppend(p: string, t: string)
    requires forall i :: 0 <= i < |t| ==> t[i] != '-'
    ensures AfterLast(p + t, '-') == AfterLast(p, '-') + t
    decreases |t|
  {
    if t == [] {
      assert p + t == p;
    } else {
      var t', c := t[..|t| - 1], t[|t| - 1];
      var s := p + t;
      assert AfterLast(s, '-') == AfterLast(p + t', '-') + [c] by {
        assert s[..|s| - 1] == p + t';
        assert s[|s| - 1] == c;
      }
      AfterLastAppend(p, t');
      assert t' + [c] == t;
      assert AfterLast(p, '-') + t' + [c] == AfterLast(p, '-') + t;
    }
  }

  /** `.str.strip()` of the chassis number; a cell that is not text becomes
      NaN. */
  function CleanChassis(v: Scalar): (r: Scalar)
    ensures NotNa(r) <==> v.Str?
  {
    match v
    case Str(s) => Str(Strip(s))
    case _ => NaN
  }

  /** A file row as the loop sees it: renamed, the model code and chassis
      number cleaned, the sale date converted by `toDate`. */
  function Cleaned(rec: Record, renames: Renames, toDate: Scalar -> Scalar): (s: Record)
    ensures s.Keys == Fields
    ensures forall f :: f in Fields && f !in {"model_code", "chassis_number", "sale_date"} ==> s[f] == Value(rec, renames, f)
  {
    var sale := SaleOf(rec, renames);
    sale["model_code" := CleanModelCode(sale["model_code"])]
        ["chassis_number" := CleanChassis(sale["chassis_number"])]
        ["sale_date" := toDate(sale["sale_date"])]
  }

  /** `dropna(subset=['chassis_number'])`. */
  function WithChassis(rows: seq<Record>): (r: seq<Record>)
    ensures forall s :: s in r <==> s in rows && NotNa(ChassisOf(s))
  {
    if rows == [] then []
    else WithChassis(rows[..|rows| - 1]) + (if NotNa(ChassisOf(rows[|rows| - 1])) then [rows[|rows| - 1]] else [])
  }

  function CleanedAll(recs: seq<Record>, renames: Renames, toDate: Scalar -> Scalar): seq<Record> {
    WithChassis(seq(|recs|, i requires 0 <= i < |recs| => Cleaned(recs[i], renames, toDate)))
  }

  datatype Outcome = NoChassisColumn | Failed | Done(imported: nat, skipped: nat)

  /** As written, the car name of every row is lost: unless the file already
      has an English `car_name` column, each new row leaves the NOT NULL
      column empty and the commit fails, so nothing is ever imported. */
  lemma CarNameLostAsWritten(pre: seq<Record>, recs: seq<Record>, toDate: Scalar -> Scalar)
    requires forall i :: 0 <= i < |recs| ==> "car_name" !in recs[i]
    requires NewSales(pre, CleanedAll(recs, RenamesAsWritten, toDate)) != []
    ensures !CommitOk(NewSales(pre, CleanedAll(recs, RenamesAsWritten, toDate)))
  {
    var news := NewSales(pre, CleanedAll(recs, RenamesAsWritten, toDate));
    var s := news[0];
    assert s in CleanedAll(recs, RenamesAsWritten, toDate) by {
      NewSalesMembers(pre, CleanedAll(recs, RenamesAsWritten, toDate), s);
    }
    var i := CleanedFrom(s, recs, RenamesAsWritten, toDate);
    assert !Complete(s) by {
      CarNameMissing(recs[i], toDate);
      assert "car_name" in Required && Get(s, "car_name") == Null;
    }
  }

  /** Every cleaned row comes from a file row. */
  lemma CleanedFrom(s: Record, recs: seq<Record>, renames: Renames, toDate: Scalar -> Scalar) returns (i: nat)
    requires s in CleanedAll(recs, renames, toDate)
    ensures i < |recs| && s == Cleaned(recs[i], renames, toDate)
  {
    var all := seq(|recs|, i requires 0 <= i < |recs| => Cleaned(recs[i], renames, toDate));
    assert s in all;
    i :| 0 <= i < |recs| && all[i] == s;
  }

  /** A row without an English `car_name` column has no car name after the
      renaming as written. */
  lemma CarNameMissing(rec: Record, toDate: Scalar -> Scalar)
    requires "car_name" !in rec
    ensures Cleaned(rec, RenamesAsWritten, toDate)["car_name"] == Null
  {
    assert forall k :: 0 <= k < |RenamesAsWritten| ==> RenamesAsWritten[k].1 != "car_name";
    assert Value(rec, RenamesAsWritten, "car_name") == Null;
  }

  /** With the intended renaming, a row carrying every Japanese column keeps
      its car name. */
  lemma CarNameKept(rec: Record, toDate: Scalar -> Scalar)
    requires JapaneseHeaders <= rec.Keys
    ensures Cleaned(rec, IntendedRenames, toDate)["car_name"] == rec["車名"]
  {
    var r := SourceOf(IntendedRenames, "car_name");
    assert IntendedRenames[3] == ("車名", "car_name");
    assert forall j :: 0 <= j < 3 ==> IntendedRenames[j].1 != "car_name";
    assert r.Some? && r.value == "車名" by {
      assert r.Some?;
      var i :| 0 <= i < |IntendedRenames| && IntendedRenames[i] == (r.value, "car_name")
                && forall j :: 0 <= j < i ==> IntendedRenames[j].1 != "car_name";
      assert i == 3;
    }
  }

  /** The body of `import_procurement_data` under a given renaming: without
      a chassis column nothing happens; a missing model-code or date column
      raises and nothing is stored; otherwise the cleaned rows with a
      chassis number go through insert-if-absent, and a failing commit
      leaves the table as it was. */
  method ImportWithRenames(table: SalesTable, headers: set<string>, recs: seq<Record>, renames: Renames, toDate: Scalar -> Scalar)
    returns (outcome: Outcome)
    modifies table
    ensures !HasColumn(headers, renames, "chassis_number") ==> outcome == NoChassisColumn
    ensures var news := NewSales(old(table.rows), CleanedAll(recs, renames, toDate));
      table.rows == if outcome.Done? then old(table.rows) + news else old(table.rows)
    ensures outcome.Done? <==>
      (HasColumn(headers, renames, "chassis_number") && HasColumn(headers, renames, "model_code")
       && HasColumn(headers, renames, "sale_date")
       && CommitOk(NewSales(old(table.rows), CleanedAll(recs, renames, toDate))))
    ensures outcome.Done? ==>
      outcome.imported == |NewSales(old(table.rows), CleanedAll(recs, renames, toDate))|
      && outcome.imported + outcome.skipped == |CleanedAll(recs, renames, toDate)|
  {
    if !HasColumn(headers, renames, "chassis_number") {
      return NoChassisColumn;
    }
    if !HasColumn(headers, renames, "model_code") || !HasColumn(headers, renames, "sale_date") {
      return Failed;
    }
    var rows := CleanedAll(recs, renames, toDate);
    var imported, skipped, committed := InsertIfAbsent(table, rows);
    outcome := if committed then Done(imported, skipped) else Failed;
  }

  /** `import_procurement_data` as written, with `車名` renamed to `maker`:
      the run above, and for a file without an English `car_name` column
      the table never changes and no run ends with a new row. */
  method ImportProcurementData(table: SalesTable, headers: set<string>, recs: seq<Record>, toDate: Scalar -> Scalar)
    returns (outcome: Outcome)
    modifies table
    ensures !HasColumn(headers, RenamesAsWritten, "chassis_number") ==> outcome == NoChassisColumn
    ensures var news := NewSales(old(table.rows), CleanedAll(recs, RenamesAsWritten, toDate));
      table.rows == if outcome.Done? then old(table.rows) + news else old(table.rows)
    ensures outcome.Done? <==>
      (HasColumn(headers, RenamesAsWritten, "chassis_number") && HasColumn(headers, RenamesAsWritten, "model_code")
       && HasColumn(headers, RenamesAsWritten, "sale_date")
       && CommitOk(NewSales(old(table.rows), CleanedAll(recs, RenamesAsWritten, toDate))))
    ensures outcome.Done? ==>
      outcome.imported == |NewSales(old(table.rows), CleanedAll(recs, RenamesAsWritten, toDate))|
      && outcome.imported + outcome.skipped == |CleanedAll(recs, RenamesAsWritten, toDate)|
    ensures (forall i :: 0 <= i < |recs| ==> "car_name" !in recs[i]) ==>
      table.rows == old(table.rows) && (outcome.Done? ==> outcome.imported == 0)
  {
    var pre := table.rows;
    outcome := ImportWithRenames(table, headers, recs, RenamesAsWritten, toDate);
    var news := NewSales(pre, CleanedAll(recs, RenamesAsWritten, toDate));
    if forall i :: 0 <= i < |recs| ==> "car_name" !in recs[i] {
      if news != [] {
        CarNameLostAsWritten(pre, recs, toDate);
      } else {
        assert pre + news == pre;
      }
    }
  }

  /** `import_procurement_data` with the intended renaming, `車名` to
      `car_name`: the same run, in which every stored row keeps its car
      name (`CarNameKept`). */
  method ImportProcurementDataIntended(table: SalesTable, headers: set<string>, recs: seq<Record>, toDate: Scalar -> Scalar)
    returns (outcome: Outcome)
    modifies table
    ensures !HasColumn(headers, IntendedRenames, "chassis_number") ==> outcome == NoChassisColumn
    ensures var news := NewSales(old(table.rows), CleanedAll(recs, IntendedRenames, toDate));
      table.rows == if outcome.Done? then old(table.rows) + news else old(table.rows)
    ensures outcome.Done? <==>
      (HasColumn(headers, IntendedRenames, "chassis_number") && HasColumn(headers, IntendedRenames, "model_code")
       && HasColumn(headers, IntendedRenames, "sale_date")
       && CommitOk(NewSales(old(table.rows), CleanedAll(recs, IntendedRenames, toDate))))
    ensures outcome.Done? ==>
      outcome.imported == |NewSales(old(table.rows), CleanedAll(recs, IntendedRenames, toDate))|
      && outcome.imported + outcome.skipped == |CleanedAll(recs, IntendedRenames, toDate)|
  {
    outcome := ImportWithRenames(table, headers, recs, IntendedRenames, toDate);
  }
}

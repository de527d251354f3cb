/** `import_sales_data.py`: sales records from a CSV file are renamed to the
    sales-history columns and added when their chassis number is new. */
module SalesImport {
  import opened Wrappers
  import opened Store
  import opened SalesHistory

  /** The renaming of the file's Japanese headers. */
  const SalesRenames: Renames := [
    ("引渡報告日", "sale_date"), ("車台番号", "chassis_number"),
    ("型式", "model_code"), ("車名", "car_name"),
    ("引渡先事業者／事業所名称", "buyer_name"), ("引渡先事業所所在地", "buyer_location")]

  /** Every required column is present after renaming. */
  predicate HasRequiredColumns(headers: set<string>) {
    forall f :: f in Required ==> HasColumn(headers, SalesRenames, f)
  }

  /** A file row as the loop sees it: renamed, the sale date converted by
      `toDate`. */
  function SaleRow(rec: Record, toDate: Scalar -> Scalar): (s: Record)
    ensures s.Keys == Fields
    ensures forall f :: f in Fields && f != "sale_date" ==> s[f] == Value(rec, SalesRenames, f)
    ensures s["sale_date"] == toDate(Value(rec, SalesRenames, "sale_date"))
  {
    map f | f in Fields :: if f == "sale_date" then toDate(Value(rec, SalesRenames, f)) else Value(rec, SalesRenames, f)
  }

  function SaleRows(recs: seq<Record>, toDate: Scalar -> Scalar): seq<Record> {
    seq(|recs|, i requires 0 <= i < |recs| => SaleRow(recs[i], toDate))
  }

  /** A missing column ends the run before the loop; an exception from the
      commit is not caught, and the session closes without storing. */
  datatype Outcome = MissingColumns | Failed | Done(imported: nat, skipped: nat)

  /** `import_data`: nothing is stored unless every required column is there
      and the commit goes through; then the rows whose chassis number was not
      stored before are added after the stored ones, which are unchanged,
      and every row is counted as imported or skipped. */
  method ImportSalesData(table: SalesTable, headers: set<string>, recs: seq<Record>, toDate: Scalar -> Scalar)
    returns (outcome: Outcome)
    modifies table
    ensures outcome == MissingColumns <==> !HasRequiredColumns(headers)
    ensures outcome.Done? <==> HasRequiredColumns(headers) && CommitOk(NewSales(old(table.rows), SaleRows(recs, toDate)))
    ensures table.rows == if outcome.Done? then old(table.rows) + NewSales(old(table.rows), SaleRows(recs, toDate))
                          else old(table.rows)
    ensures outcome.Done? ==>
      outcome.imported == |NewSales(old(table.rows), SaleRows(recs, toDate))|
      && outcome.imported + outcome.skipped == |recs|
  {
    if !HasRequiredColumns(headers) {
      return MissingColumns;
    }
    var rows := SaleRows(recs, toDate);
    var imported, skipped, committed := InsertIfAbsent(table, rows);
    outcome := if committed then Done(imported, skipped) else Failed;
  }

  /** A stored row keeps the file's car name: the `車名` cell, or an English
      `car_name` cell when the file has no `車名` column. */
  lemma CarNameCarried(rec: Record, toDate: Scalar -> Scalar)
    ensures SaleRow(rec, toDate)["car_name"] == if "車名" in rec then rec["車名"] else Get(rec, "car_name")
  {
    var r := SourceOf(SalesRenames, "car_name");
    assert SalesRenames[3] == ("車名", "car_name");
    assert forall j :: 0 <= j < 3 ==> SalesRenames[j].1 != "car_name";
    assert r == Some("車名") by {
      assert r.Some?;
      var i :| 0 <= i < |SalesRenames| && SalesRenames[i] == (r.value, "car_name")
                && forall j :: 0 <= j < i ==> SalesRenames[j].1 != "car_name";
      assert i == 3;
    }
  }

  /** A row whose chassis number is already stored is skipped: it is not
      among the rows added. */
  lemma StoredRowSkipped(pre: seq<Record>, recs: seq<Record>, toDate: Scalar -> Scalar, i: nat)
    requires i < |recs|
    requires StoredChassis(pre, ChassisOf(SaleRow(recs[i], toDate)))
    ensures SaleRow(recs[i], toDate) !in NewSales(pre, SaleRows(recs, toDate))
  {
    NewSalesMembers(pre, SaleRows(recs, toDate), SaleRow(recs[i], toDate));
  }
}

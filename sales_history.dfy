/** The sales-history table as the two CSV imports fill it: file rows are
    renamed to the table's columns, a row is added only when its chassis
    number was not stored before the run, and the run is committed as a
    whole or not at all. */
module SalesHistory {
  import opened Wrappers
  import opened Store

  /** The columns of the table. */
  const Fields: set<string> := {"sale_date", "chassis_number", "model_code", "car_name", "buyer_name", "buyer_location"}

  /** The columns declared without `Optional`, which the table holds NOT
      NULL. */
  const Required: set<string> := {"sale_date", "chassis_number", "model_code", "car_name", "buyer_name"}

  /** A `rename(columns=...)` table: original name, new name. */
  type Renames = seq<(string, string)>

  /** The original column that is renamed to `f`, if any. */
  function SourceOf(renames: Renames, f: string): (r: Option<string>)
    ensures r.Some? ==> exists i :: 0 <= i < |renames| && renames[i] == (r.value, f)
                                    && forall j :: 0 <= j < i ==> renames[j].1 != f
    ensures r.None? <==> forall i :: 0 <= i < |renames| ==> renames[i].1 != f
  {
    if renames == [] then None
    else if renames[0].1 == f then Some(renames[0].0)
    else SourceOf(renames[1..], f)
  }

  /** After renaming, the file has a column `f`: the column renamed to it,
      or one already carrying the name. */
  predicate HasColumn(headers: set<string>, renames: Renames, f: string) {
    (SourceOf(renames, f).Some? && SourceOf(renames, f).value in headers) || f in headers
  }

  /** The value of column `f` of a file row after renaming. */
  function Value(rec: Record, renames: Renames, f: string): Scalar {
    match SourceOf(renames, f)
    case Some(o) => if o in rec then rec[o] else Get(rec, f)
    case None => Get(rec, f)
  }

  /** `SalesHistory(**record)` of a renamed row: the table's columns are
      taken from it, any other column is ignored, a missing one is NULL. */
  function SaleOf(rec: Record, renames: Renames): (s: Record)
    ensures s.Keys == Fields
    ensures forall f :: f in Fields ==> s[f] == Value(rec, renames, f)
  {
    map f | f in Fields :: Value(rec, renames, f)
  }

  function ChassisOf(s: Record): Scalar {
    Get(s, "chassis_number")
  }

  /** `filter_by(chassis_number=c).first()` finds a row: SQL equality, which
      NULL never satisfies. */
  predicate StoredChassis(table: seq<Record>, c: Scalar) {
    exists i :: 0 <= i < |table| && NotNa(c) && ChassisOf(table[i]) == c
  }

  /** The rows the loop adds to the session: those whose chassis number was
      not stored before the run. The session does not flush, so a row added
      earlier in the same run is not found. */
  function NewSales(pre: seq<Record>, sales: seq<Record>): (r: seq<Record>)
    ensures |r| <= |sales|
  {
    if sales == [] then []
    else
      var last := sales[|sales| - 1];
      NewSales(pre, sales[..|sales| - 1]) + (if StoredChassis(pre, ChassisOf(last)) then [] else [last])
  }

  /** A row is added exactly when it is in the file and its chassis number
      was not stored before the run. */
  lemma {:induction false} NewSalesMembers(pre: seq<Record>, sales: seq<Record>, s: Record)
    ensures s in NewSales(pre, sales) <==> s in sales && !StoredChassis(pre, ChassisOf(s))
  {
    if sales != [] {
      var init := sales[..|sales| - 1];
      NewSalesMembers(pre, init, s);
      assert sales == init + [sales[|sales| - 1]];
    }
  }

  /** Every NOT NULL column holds a value. */
  predicate Complete(s: Record) {
    forall f :: f in Required ==> NotNa(Get(s, f))
  }

  predicate DistinctChassis(news: seq<Record>) {
    forall i, j :: 0 <= i < j < |news| ==> ChassisOf(news[i]) != ChassisOf(news[j])
  }

  /** The commit of the new rows succeeds when each fills the NOT NULL
      columns and no two share a chassis number (the column is UNIQUE). */
  predicate CommitOk(news: seq<Record>) {
    (forall i :: 0 <= i < |news| ==> Complete(news[i])) && DistinctChassis(news)
  }

  /** The table, as the session reads and writes it. */
  class SalesTable {
    var rows: seq<Record>

    constructor (rows0: seq<Record>)
      ensures rows == rows0
    {
      rows := rows0;
    }
  }

  /** The insert-if-absent loop and the commit: new rows are counted as
      imported, the others as skipped; the stored rows are never changed,
      and the new ones are kept only when the commit goes through. */
  method InsertIfAbsent(table: SalesTable, sales: seq<Record>)
    returns (imported: nat, skipped: nat, committed: bool)
    modifies table
    ensures imported == |NewSales(old(table.rows), sales)| && imported + skipped == |sales|
    ensures committed == CommitOk(NewSales(old(table.rows), sales))
    ensures table.rows == if committed then old(table.rows) + NewSales(old(table.rows), sales) else old(table.rows)
  {
    var pre := table.rows;
    var pending: seq<Record> := [];
    imported, skipped := 0, 0;
    for n := 0 to |sales|
      invariant pending == NewSales(pre, sales[..n])
      invariant imported == |pending| && imported + skipped == n
    {
      assert sales[..n + 1][..n] == sales[..n];
      if !StoredChassis(pre, ChassisOf(sales[n])) {
        pending := pending + [sales[n]];
        imported := imported + 1;
      } else {
        skipped := skipped + 1;
      }
    }
    assert sales[..|sales|] == sales;
    committed := CommitOk(pending);
    if committed {
      table.rows := pre + pending;
    }
  }

  /** The new rows of a prefix of the file come first among the new rows of
      the file. */
  lemma {:induction false} NewSalesPrefix(pre: seq<Record>, sales: seq<Record>, n: nat)
    requires n <= |sales|
    ensures NewSales(pre, sales[..n]) <= NewSales(pre, sales)
    decreases |sales| - n
  {
    if n < |sales| {
      NewSalesPrefix(pre, sales, n + 1);
      assert sales[..n + 1][..n] == sales[..n];
    } else {
      assert sales[..n] == sales;
    }
  }

  /** A new row of the file sits among the new rows right after those of the
      rows before it. */
  lemma NewSalesIndex(pre: seq<Record>, sales: seq<Record>, n: nat) returns (k: nat)
    requires n < |sales| && !StoredChassis(pre, ChassisOf(sales[n]))
    ensures k == |NewSales(pre, sales[..n])|
    ensures k < |NewSales(pre, sales)| && NewSales(pre, sales)[k] == sales[n]
  {
    var front := NewSales(pre, sales[..n]);
    k := |front|;
    var grown := NewSales(pre, sales[..n + 1]);
    assert grown == front + [sales[n]] by {
      assert sales[..n + 1][..n] == sales[..n];
    }
    NewSalesPrefix(pre, sales, n + 1);
    assert NewSales(pre, sales)[k] == grown[k];
  }

  /** A chassis number that is not yet stored and appears twice in the file
      makes the commit fail: nothing of the run is stored. */
  lemma RepeatedChassisFails(pre: seq<Record>, sales: seq<Record>, i: nat, j: nat)
    requires i < j < |sales|
    requires ChassisOf(sales[i]) == ChassisOf(sales[j])
    requires !StoredChassis(pre, ChassisOf(sales[j]))
    ensures !CommitOk(NewSales(pre, sales))
  {
    var ki := NewSalesIndex(pre, sales, i);
    var kj := NewSalesIndex(pre, sales, j);
    assert ki < kj by {
      var upto := sales[..j];
      assert upto[..i + 1] == sales[..i + 1];
      NewSalesPrefix(pre, upto, i + 1);
      assert |NewSales(pre, sales[..i + 1])| == ki + 1 by {
        assert sales[..i + 1][..i] == sales[..i];
      }
    }
    var all := NewSales(pre, sales);
    assert ChassisOf(all[ki]) == ChassisOf(all[kj]);
  }

  /** Running the same file again after a committed run adds nothing: each
      row's chassis number is now stored, either from before the first run
      or by its own new row, which the commit required to be filled. */
  lemma RerunAddsNothing(pre: seq<Record>, sales: seq<Record>)
    requires CommitOk(NewSales(pre, sales))
    ensures NewSales(pre + NewSales(pre, sales), sales) == []
  {
    var news := NewSales(pre, sales);
    var post := pre + news;
    forall s | s in sales
      ensures StoredChassis(post, ChassisOf(s))
    {
      if StoredChassis(pre, ChassisOf(s)) {
        var i :| 0 <= i < |pre| && NotNa(ChassisOf(s)) && ChassisOf(pre[i]) == ChassisOf(s);
        assert post[i] == pre[i];
      } else {
        NewSalesMembers(pre, sales, s);
        var k :| 0 <= k < |news| && news[k] == s;
        assert Complete(news[k]) && "chassis_number" in Required;
        assert post[|pre| + k] == s;
      }
    }
    NothingNew(post, sales);
  }

  /** When every chassis number of the file is stored, no row is new. */
  lemma {:induction false} NothingNew(pre: seq<Record>, sales: seq<Record>)
    requires forall s :: s in sales ==> StoredChassis(pre, ChassisOf(s))
    ensures NewSales(pre, sales) == []
  {
    if sales != [] {
      assert sales[|sales| - 1] in sales;
      NothingNew(pre, sales[..|sales| - 1]);
    }
  }
}

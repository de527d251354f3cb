/** `import_special_prices.py`: fixed per-model part prices read from a CSV
    file are written into the price catalog, one record at a time, with a
    count of new and updated rows. */
module SpecialPrices {
  import opened Wrappers
  import opened Store
  import opened Valuation
  import opened MarketPrices

  /** A usable record: a model code, an item name and a non-zero price. */
  datatype SpecialPrice = SpecialPrice(model_code: string, item_name: string, price: real)

  /** The model code of a record after `normalize_text`, which leaves a
      non-string cell as it is. */
  function Normalized(rec: Record, normalize: string -> string): (r: Record)
    ensures r.Keys == rec.Keys
    ensures forall key :: key in rec && key != "model_code" ==> r[key] == rec[key]
  {
    if "model_code" in rec && rec["model_code"].Str? then rec["model_code" := Str(normalize(rec["model_code"].s))]
    else rec
  }

  /** The skip test as written, `all([model_code, item_name, price])`: every
      value truthy. An empty CSV cell reads as NaN, which is truthy, so it
      passes, and so does a non-zero number in a text column or a non-empty
      text in the price column. */
  predicate AllTruthy(rec: Record) {
    Truthy(Get(rec, "model_code")) && Truthy(Get(rec, "item_name")) && Truthy(Get(rec, "price"))
  }

  /** The skip test as intended: the model code and the item are non-empty
      text and the price is a non-zero number. A missing or NaN cell, a
      numeric model code or item, or a text price is skipped. */
  function Usable(rec: Record): (r: Option<SpecialPrice>)
    ensures r.Some? ==> AllTruthy(rec)
    ensures r.Some? ==> NotNa(Get(rec, "model_code")) && NotNa(Get(rec, "item_name")) && NotNa(Get(rec, "price"))
    ensures r.Some? <==>
      (AllTruthy(rec) && Get(rec, "model_code").Str? && Get(rec, "item_name").Str? && Get(rec, "price").Num?)
    ensures r.Some? ==> r.value == SpecialPrice(Get(rec, "model_code").s, Get(rec, "item_name").s, Get(rec, "price").x)
  {
    match (Get(rec, "model_code"), Get(rec, "item_name"), Get(rec, "price"))
    case (Str(code), Str(item), Num(price)) =>
      if code != "" && item != "" && price != 0.0 then Some(SpecialPrice(code, item, price)) else None
    case _ => None
  }

  /** The text a text column receives from a cell: a text cell as it is, any
      other cell as the session and the database convert it (`asText`). */
  function AsText(v: Scalar, asText: Scalar -> string): string {
    if v.Str? then v.s else asText(v)
  }

  /** The number the price columns receive from a cell: a number as it is,
      NaN or text as the session and the database convert it (`asPrice`). */
  function AsPrice(v: Scalar, asPrice: Scalar -> real): real {
    if v.Num? then v.x else asPrice(v)
  }

  /** The record as the loop writes it under the test as written: every
      record that passes `AllTruthy` is written, whatever its cells hold. */
  function Written(rec: Record, asText: Scalar -> string, asPrice: Scalar -> real): (r: Option<SpecialPrice>)
    ensures r.Some? <==> AllTruthy(rec)
    ensures r.Some? && Get(rec, "model_code").Str? ==> r.value.model_code == Get(rec, "model_code").s
    ensures r.Some? && Get(rec, "item_name").Str? ==> r.value.item_name == Get(rec, "item_name").s
    ensures r.Some? && Get(rec, "price").Num? ==> r.value.price == Get(rec, "price").x
  {
    if AllTruthy(rec) then
      Some(SpecialPrice(AsText(Get(rec, "model_code"), asText), AsText(Get(rec, "item_name"), asText),
                        AsPrice(Get(rec, "price"), asPrice)))
    else None
  }

  /** Which records the loop writes: `AsWritten` is the loop's own test, with
      the conversions of cells of the wrong type left open; `Corrected` is
      the intended test, `Usable`. */
  datatype SkipTest = AsWritten(asText: Scalar -> string, asPrice: Scalar -> real) | Corrected

  function Accepted(test: SkipTest, rec: Record): (r: Option<SpecialPrice>)
    ensures r.Some? ==> AllTruthy(rec)
  {
    match test
    case AsWritten(asText, asPrice) => Written(rec, asText, asPrice)
    case Corrected => Usable(rec)
  }

  /** The corrected test only drops records: whatever it accepts, the test
      as written accepts with the same values. */
  lemma CorrectedWritesLess(asText: Scalar -> string, asPrice: Scalar -> real, rec: Record)
    ensures Usable(rec).Some? ==> Accepted(AsWritten(asText, asPrice), rec) == Usable(rec)
    ensures Accepted(AsWritten(asText, asPrice), rec).None? ==> Usable(rec).None?
  {
  }

  /** An existing row takes the price as both its latest and average price,
      with a sample size of one. */
  function Fixed(c: ComponentValue, price: real): ComponentValue {
    c.(latest_price := price, average_price := price, sample_size := 1)
  }

  /** A new row for a special price, tagged `special`. */
  function NewSpecial(p: SpecialPrice): ComponentValue {
    ComponentValue(p.item_name, Some(p.model_code), None, Some("special"), p.price, p.price, 1)
  }

  datatype Outcome = Skipped | Updated | Imported

  /** One record. The existence check queries the rows stored before the run
      (`pre`): the session does not flush, so a row added earlier in the
      same run is not found, while a found row is the session's own object
      and takes every later update. */
  function Apply(pre: seq<ComponentValue>, rows: seq<ComponentValue>, rec: Record, test: SkipTest): (r: (seq<ComponentValue>, Outcome))
    requires |pre| <= |rows|
  {
    match Accepted(test, rec)
    case None => (rows, Skipped)
    case Some(p) =>
      match FirstExact(pre, p.item_name, p.model_code, 0)
      case Some(i) => (rows[i := Fixed(rows[i], p.price)], Updated)
      case None => (rows + [NewSpecial(p)], Imported)
  }

  /** A record with its price cell left empty passes the skip test as
      written and is imported into an empty catalog, although it holds no
      usable price; the corrected test skips it. */
  lemma EmptyPricePassesCheck(asText: Scalar -> string, asPrice: Scalar -> real)
    ensures var rec := map["model_code" := Str("ABC123"), "item_name" := Str("Catalyst"), "price" := NaN];
      && AllTruthy(rec) && Usable(rec).None?
      && Apply([], [], rec, AsWritten(asText, asPrice)) == ([NewSpecial(SpecialPrice("ABC123", "Catalyst", asPrice(NaN)))], Imported)
      && Apply([], [], rec, Corrected) == ([], Skipped)
  {
    var rec := map["model_code" := Str("ABC123"), "item_name" := Str("Catalyst"), "price" := NaN];
    assert Get(rec, "price") == NaN;
    assert Accepted(Corrected, rec).None?;
    assert Accepted(AsWritten(asText, asPrice), rec) == Some(SpecialPrice("ABC123", "Catalyst", asPrice(NaN)));
    assert FirstExact([], "Catalyst", "ABC123", 0).None?;
    var row := NewSpecial(SpecialPrice("ABC123", "Catalyst", asPrice(NaN)));
    assert [] + [row] == [row];
  }

  datatype Run = Run(rows: seq<ComponentValue>, imported: nat, updated: nat, skipped: nat)

  function Count(r: Run, o: Outcome): Run {
    match o
    case Skipped => r.(skipped := r.skipped + 1)
    case Updated => r.(updated := r.updated + 1)
    case Imported => r.(imported := r.imported + 1)
  }

  /** The record loop over `recs`, in order, under the skip test `test`. */
  function RunSpec(pre: seq<ComponentValue>, recs: seq<Record>, normalize: string -> string, test: SkipTest): (r: Run)
    ensures |pre| <= |r.rows|
  {
    if recs == [] then Run(pre, 0, 0, 0)
    else
      var prev := RunSpec(pre, recs[..|recs| - 1], normalize, test);
      var (rows, o) := Apply(pre, prev.rows, Normalized(recs[|recs| - 1], normalize), test);
      Count(prev.(rows := rows), o)
  }

  /** Every record is counted once: new, updated or skipped. */
  lemma {:induction false} CountsAddUp(pre: seq<ComponentValue>, recs: seq<Record>, normalize: string -> string, test: SkipTest)
    ensures var r := RunSpec(pre, recs, normalize, test);
      r.imported + r.updated + r.skipped == |recs|
  {
    if recs != [] {
      CountsAddUp(pre, recs[..|recs| - 1], normalize, test);
    }
  }

  /** The new rows of a run: one per accepted record whose model code and
      item had no row before the run, in record order. */
  function FreshRows(pre: seq<ComponentValue>, recs: seq<Record>, normalize: string -> string, test: SkipTest): seq<ComponentValue> {
    if recs == [] then []
    else
      FreshRows(pre, recs[..|recs| - 1], normalize, test)
      + match Accepted(test, Normalized(recs[|recs| - 1], normalize))
        case Some(p) =>
          (if FirstExact(pre, p.item_name, p.model_code, 0).None? then [NewSpecial(p)] else [])
        case None => []
  }

  /** The price of the last accepted record that finds the pre-run row `i`. */
  function LastHit(pre: seq<ComponentValue>, recs: seq<Record>, normalize: string -> string, test: SkipTest, i: nat): Option<real> {
    if recs == [] then None
    else
      match Accepted(test, Normalized(recs[|recs| - 1], normalize))
      case Some(p) =>
        if FirstExact(pre, p.item_name, p.model_code, 0) == Some(i) then Some(p.price)
        else LastHit(pre, recs[..|recs| - 1], normalize, test, i)
      case None => LastHit(pre, recs[..|recs| - 1], normalize, test, i)
  }

  /** The rows a run appends: one per accepted record without a pre-run
      row, as many as the imported count. */
  lemma {:induction false} RunNewRows(pre: seq<ComponentValue>, recs: seq<Record>, normalize: string -> string, test: SkipTest)
    ensures var r := RunSpec(pre, recs, normalize, test);
      r.rows[|pre|..] == FreshRows(pre, recs, normalize, test) && |r.rows| == |pre| + r.imported
  {
    if recs != [] {
      var front := recs[..|recs| - 1];
      RunNewRows(pre, front, normalize, test);
      var prev := RunSpec(pre, front, normalize, test);
      match Accepted(test, Normalized(recs[|recs| - 1], normalize))
      case None =>
      case Some(p) =>
        match FirstExact(pre, p.item_name, p.model_code, 0)
        case Some(i) =>
          assert prev.rows[|pre|..] == prev.rows[i := Fixed(prev.rows[i], p.price)][|pre|..];
        case None =>
          assert (prev.rows + [NewSpecial(p)])[|pre|..] == prev.rows[|pre|..] + [NewSpecial(p)];
    }
  }

  /** The pre-run row `i` after a run: unchanged unless an accepted record
      found it, in which case it carries the last such record's price. */
  lemma {:induction false} RunOldRow(pre: seq<ComponentValue>, recs: seq<Record>, normalize: string -> string, test: SkipTest, i: nat)
    requires i < |pre|
    ensures RunSpec(pre, recs, normalize, test).rows[i] ==
      match LastHit(pre, recs, normalize, test, i)
      case None => pre[i]
      case Some(price) => Fixed(pre[i], price)
  {
    if recs != [] {
      RunOldRow(pre, recs[..|recs| - 1], normalize, test, i);
    }
  }

  /** The rows after a run: each pre-run row unchanged unless an accepted
      record found it, in which case it carries the last such record's
      price; then the new rows, one per accepted record without a pre-run
      row; the number of new rows is the imported count. */
  lemma RunRows(pre: seq<ComponentValue>, recs: seq<Record>, normalize: string -> string, test: SkipTest)
    ensures var r := RunSpec(pre, recs, normalize, test);
      && r.rows[|pre|..] == FreshRows(pre, recs, normalize, test)
      && |r.rows| == |pre| + r.imported
      && forall i :: 0 <= i < |pre| ==>
           r.rows[i] == match LastHit(pre, recs, normalize, test, i)
                        case None => pre[i]
                        case Some(price) => Fixed(pre[i], price)
  {
    RunNewRows(pre, recs, normalize, test);
    forall i | 0 <= i < |pre|
      ensures RunSpec(pre, recs, normalize, test).rows[i] ==
        match LastHit(pre, recs, normalize, test, i)
        case None => pre[i]
        case Some(price) => Fixed(pre[i], price)
    {
      RunOldRow(pre, recs, normalize, test, i);
    }
  }

  /** `import_special_prices`: every record that passes the skip test as
      written is written through the session, whose changes are committed at
      the end; when the commit does not go through (`committed` false) they
      are rolled back and the catalog is as before. `asText` and `asPrice`
      are what the session stores for a cell of the wrong type. */
  method ImportSpecialPrices(catalog: PriceCatalog, records: seq<Record>, normalize: string -> string,
                             asText: Scalar -> string, asPrice: Scalar -> real, committed: bool)
    returns (imported: nat, updated: nat, skipped: nat)
    modifies catalog
    ensures var r := RunSpec(old(catalog.rows), records, normalize, AsWritten(asText, asPrice));
      imported == r.imported && updated == r.updated && skipped == r.skipped
    ensures catalog.rows ==
      if committed then RunSpec(old(catalog.rows), records, normalize, AsWritten(asText, asPrice)).rows
      else old(catalog.rows)
  {
    var pre := catalog.rows;
    imported, updated, skipped := 0, 0, 0;
    for n := 0 to |records|
      invariant Run(catalog.rows, imported, updated, skipped) == RunSpec(pre, records[..n], normalize, AsWritten(asText, asPrice))
    {
      assert records[..n + 1][..n] == records[..n];
      var rec := Normalized(records[n], normalize);
      if !AllTruthy(rec) {
        skipped := skipped + 1;
      } else {
        var code := AsText(Get(rec, "model_code"), asText);
        var item := AsText(Get(rec, "item_name"), asText);
        var price := AsPrice(Get(rec, "price"), asPrice);
        match FirstExact(pre, item, code, 0)
        case Some(i) =>
          catalog.rows := catalog.rows[i := Fixed(catalog.rows[i], price)];
          updated := updated + 1;
        case None =>
          catalog.rows := catalog.rows + [NewSpecial(SpecialPrice(code, item, price))];
          imported := imported + 1;
      }
    }
    assert records[..|records|] == records;
    if !committed {
      catalog.rows := pre;
    }
  }
}

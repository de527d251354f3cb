/** The auction-sheet layout reconstructor of src/data_processing/pdf_parser.py:
    positioned words are grouped into lines by their rounded top coordinate,
    each line's words are sorted left to right and assigned to the first
    configured column whose interval holds their horizontal centre, and a line
    becomes a vehicle row only if its auction number is all digits. */
module Layout {
  import opened Wrappers
  import opened Text
  import opened Sorting

  /** A positioned word as the PDF library reports it. */
  datatype Word = Word(text: string, x0: real, x1: real, top: real)

  /** A named column and its half-open horizontal interval [lo, hi). */
  datatype Column = Column(name: string, lo: real, hi: real)

  /** `COLUMN_BOUNDARIES`, in declaration order. The two evaluation columns
      share one interval; the range 578 to 720 belongs to no column. */
  const Columns: seq<Column> := [
    Column("auction_no", 15.0, 43.0),
    Column("maker", 43.0, 80.0),
    Column("car_name", 80.0, 200.0),
    Column("grade", 200.0, 300.0),
    Column("year", 300.0, 352.0),
    Column("model_code", 352.0, 400.0),
    Column("displacement_cc", 400.0, 453.0),
    Column("inspection_date", 453.0, 486.0),
    Column("mileage_km", 486.0, 515.0),
    Column("color", 515.0, 548.0),
    Column("shift", 548.0, 578.0),
    Column("evaluation_score", 720.0, 750.0),
    Column("evaluation_interior", 720.0, 750.0)
  ]

  const AuctionNoColumn: nat := 0
  const InteriorColumn: nat := 12

  type Row = map<string, string>

  function Centre(w: Word): real {
    (w.x0 + w.x1) / 2.0
  }

  predicate InColumn(c: Column, x: real) {
    c.lo <= x < c.hi
  }

  /** The first column at or after index `from` whose interval holds `x`. */
  function FirstColumnFrom(x: real, from: nat): (r: Option<nat>)
    requires from <= |Columns|
    ensures r.Some? ==> from <= r.value < |Columns| && InColumn(Columns[r.value], x)
    ensures r.Some? ==> forall j :: from <= j < r.value ==> !InColumn(Columns[j], x)
    ensures r.None? ==> forall j :: from <= j < |Columns| ==> !InColumn(Columns[j], x)
    decreases |Columns| - from
  {
    if from == |Columns| then None
    else if InColumn(Columns[from], x) then Some(from)
    else FirstColumnFrom(x, from + 1)
  }

  /** The column a word is assigned to, if any. */
  function ColumnOf(w: Word): Option<nat> {
    FirstColumnFrom(Centre(w), 0)
  }

  /** A word whose centre lies in exactly one interval goes to that column. */
  lemma OnlyMatchingColumn(w: Word, k: nat)
    requires k < |Columns| && InColumn(Columns[k], Centre(w))
    requires forall j :: 0 <= j < |Columns| && j != k ==> !InColumn(Columns[j], Centre(w))
    ensures ColumnOf(w) == Some(k)
  {
  }

  /** A word centred between `shift` and `evaluation_score`, left of
      `auction_no` or right of the evaluation columns is dropped. */
  lemma OutsideEveryColumnDropped(w: Word)
    requires Centre(w) < 15.0 || 578.0 <= Centre(w) < 720.0 || 750.0 <= Centre(w)
    ensures ColumnOf(w) == None
  {
  }

  /** `evaluation_interior` repeats the interval of `evaluation_score`, which
      comes first, so no word is ever assigned to it. */
  lemma InteriorNeverChosen(w: Word)
    ensures ColumnOf(w) != Some(InteriorColumn)
  {
    if ColumnOf(w) == Some(InteriorColumn) {
      assert InColumn(Columns[11], Centre(w));
      assert false;
    }
  }

  /** The texts of the words of `ws` assigned to column `k`, in order. */
  function Texts(ws: seq<Word>, k: nat): seq<string> {
    if ws == [] then []
    else
      var w := ws[|ws| - 1];
      Texts(ws[..|ws| - 1], k) + (if ColumnOf(w) == Some(k) then [w.text] else [])
  }

  /** The cells of a line's row, column by column. */
  function CellsOf(ws: seq<Word>): (cells: seq<seq<string>>)
    ensures |cells| == |Columns|
  {
    seq(|Columns|, k requires 0 <= k < |Columns| => Texts(ws, k))
  }

  /** The dictionary of the first `n` columns, each holding its words joined
      by single spaces (`" ".join(value)`). */
  function RowFromCells(cells: seq<seq<string>>, n: nat): Row
    requires n <= |cells| && n <= |Columns|
  {
    if n == 0 then map[]
    else RowFromCells(cells, n - 1)[Columns[n - 1].name := Join(" ", cells[n - 1])]
  }

  /** The reconstructed row of a line. */
  function RowOf(ws: seq<Word>): Row {
    RowFromCells(CellsOf(ws), |Columns|)
  }

  lemma ColumnNamesDistinct()
    ensures forall i, j :: 0 <= i < j < |Columns| ==> Columns[i].name != Columns[j].name
  {
  }

  lemma {:induction false} RowFromCellsHolds(cells: seq<seq<string>>, n: nat)
    requires n <= |cells| && n <= |Columns|
    ensures forall k :: 0 <= k < n ==>
      (Columns[k].name in RowFromCells(cells, n)
       && RowFromCells(cells, n)[Columns[k].name] == Join(" ", cells[k]))
    ensures forall name :: name in RowFromCells(cells, n) ==> exists k :: 0 <= k < n && Columns[k].name == name
  {
    if n > 0 {
      RowFromCellsHolds(cells, n - 1);
      var prev := RowFromCells(cells, n - 1);
      var name := Columns[n - 1].name;
      var r := prev[name := Join(" ", cells[n - 1])];
      assert RowFromCells(cells, n) == r;
      forall k | 0 <= k < n
        ensures Columns[k].name in r && r[Columns[k].name] == Join(" ", cells[k])
      {
        if k < n - 1 {
          ColumnNameDistinct(k, n - 1);
        }
      }
      forall key | key in r
        ensures exists k :: 0 <= k < n && Columns[k].name == key
      {
        if key == name {
          assert Columns[n - 1].name == key;
        } else {
          assert key in prev;
          var k :| 0 <= k < n - 1 && Columns[k].name == key;
          assert 0 <= k < n && Columns[k].name == key;
        }
      }
    }
  }

  lemma ColumnNameDistinct(i: nat, j: nat)
    requires i < j < |Columns|
    ensures Columns[i].name != Columns[j].name
  {
    ColumnNamesDistinct();
  }

  /** Every row has exactly the configured columns, and each column's cell
      is the texts of the words assigned to it, joined by single spaces in
      the order of the line. */
  lemma RowHasEveryColumn(ws: seq<Word>)
    ensures forall k :: 0 <= k < |Columns| ==>
      (Columns[k].name in RowOf(ws) && RowOf(ws)[Columns[k].name] == Join(" ", Texts(ws, k)))
    ensures forall name :: name in RowOf(ws) ==> exists k :: 0 <= k < |Columns| && Columns[k].name == name
  {
    RowFromCellsHolds(CellsOf(ws), |Columns|);
  }

  lemma {:induction false} InteriorTextsEmpty(ws: seq<Word>)
    ensures Texts(ws, InteriorColumn) == []
  {
    if ws != [] {
      InteriorTextsEmpty(ws[..|ws| - 1]);
      InteriorNeverChosen(ws[|ws| - 1]);
    }
  }

  /** The `evaluation_interior` cell of every reconstructed row is empty. */
  lemma InteriorCellEmpty(ws: seq<Word>)
    ensures "evaluation_interior" in RowOf(ws) && RowOf(ws)["evaluation_interior"] == ""
  {
    InteriorTextsEmpty(ws);
    RowHasEveryColumn(ws);
    assert Columns[InteriorColumn].name == "evaluation_interior";
  }

  /** A line is kept as a vehicle row iff its stripped auction number is a
      non-empty string of digits. */
  predicate IsVehicleRow(row: Row) {
    var a := Strip(if "auction_no" in row then row["auction_no"] else "");
    a != "" && IsDigits(a)
  }

  // ---------------------------------------------------------------------
  // Grouping words into lines

  /** The line key of a word: its top coordinate, rounded by `rnd` (Python's
      `round`, whose ties-to-even behaviour is left to the caller). */
  function LineKey(w: Word, rnd: real -> int): int {
    rnd(w.top)
  }

  /** The words of `ws` whose line key is `key`, in their original order. */
  function Bucket(ws: seq<Word>, rnd: real -> int, key: int): seq<Word> {
    if ws == [] then []
    else
      var w := ws[|ws| - 1];
      Bucket(ws[..|ws| - 1], rnd, key) + (if LineKey(w, rnd) == key then [w] else [])
  }

  /** The distinct line keys of `ws` in order of first appearance (the key
      order of the `lines` dictionary). */
  function KeysInOrder(ws: seq<Word>, rnd: real -> int): seq<int> {
    if ws == [] then []
    else
      var prev := KeysInOrder(ws[..|ws| - 1], rnd);
      var key := LineKey(ws[|ws| - 1], rnd);
      if key in prev then prev else prev + [key]
  }

  function IntKey(k: int): real { k as real }

  function X0(w: Word): real { w.x0 }

  /** The line keys in ascending order. */
  function SortedKeys(ws: seq<Word>, rnd: real -> int): seq<int> {
    SortBy(KeysInOrder(ws, rnd), IntKey)
  }

  /** The row reconstructed from the line with key `key`. */
  function LineRow(ws: seq<Word>, rnd: real -> int, key: int): Row {
    RowOf(SortBy(Bucket(ws, rnd, key), X0))
  }

  /** The vehicle rows of the lines listed in `keys`, in that order. */
  function RowsOf(ws: seq<Word>, rnd: real -> int, keys: seq<int>): seq<Row> {
    if keys == [] then []
    else
      var row := LineRow(ws, rnd, keys[|keys| - 1]);
      RowsOf(ws, rnd, keys[..|keys| - 1]) + (if IsVehicleRow(row) then [row] else [])
  }

  /** The vehicle rows of one page. */
  function PageRows(ws: seq<Word>, rnd: real -> int): seq<Row> {
    RowsOf(ws, rnd, SortedKeys(ws, rnd))
  }

  lemma {:induction false} BucketMembers(ws: seq<Word>, rnd: real -> int, key: int, w: Word)
    ensures w in Bucket(ws, rnd, key) <==> w in ws && LineKey(w, rnd) == key
  {
    if ws != [] {
      BucketMembers(ws[..|ws| - 1], rnd, key, w);
      assert ws == ws[..|ws| - 1] + [ws[|ws| - 1]];
    }
  }

  lemma {:induction false} KeysInOrderMembers(ws: seq<Word>, rnd: real -> int)
    ensures Distinct(KeysInOrder(ws, rnd))
    ensures forall key :: key in KeysInOrder(ws, rnd) <==> exists w :: w in ws && LineKey(w, rnd) == key
  {
    if ws != [] {
      var init := ws[..|ws| - 1];
      KeysInOrderMembers(init, rnd);
      assert ws == init + [ws[|ws| - 1]];
      forall key ensures key in KeysInOrder(ws, rnd) <==> exists w :: w in ws && LineKey(w, rnd) == key {
        if key in KeysInOrder(ws, rnd) && key != LineKey(ws[|ws| - 1], rnd) {
          var w :| w in init && LineKey(w, rnd) == key;
          assert w in ws;
        }
      }
    }
  }

  /** Grouping: a word lands in the line of its rounded top and in no other,
      and the line keys are emitted once each, in strictly ascending order,
      exactly for the rounded tops that occur. */
  lemma LineGrouping(ws: seq<Word>, rnd: real -> int)
    ensures forall w, key :: w in Bucket(ws, rnd, key) <==> w in ws && LineKey(w, rnd) == key
    ensures forall key :: key in SortedKeys(ws, rnd) <==> exists w :: w in ws && LineKey(w, rnd) == key
    ensures forall i, j :: 0 <= i < j < |SortedKeys(ws, rnd)| ==> SortedKeys(ws, rnd)[i] < SortedKeys(ws, rnd)[j]
  {
    forall w, key ensures w in Bucket(ws, rnd, key) <==> w in ws && LineKey(w, rnd) == key {
      BucketMembers(ws, rnd, key, w);
    }
    KeysInOrderMembers(ws, rnd);
    SortedKeysSameKeys(ws, rnd);
    SortedKeysAscending(ws, rnd);
  }

  lemma SortedKeysSameKeys(ws: seq<Word>, rnd: real -> int)
    ensures forall key :: key in SortedKeys(ws, rnd) <==> key in KeysInOrder(ws, rnd)
  {
    var ks := KeysInOrder(ws, rnd);
    SortBySortedPermutation(ks, IntKey);
    var sk := SortedKeys(ws, rnd);
    forall key ensures key in sk <==> key in ks {
      assert key in sk <==> key in multiset(sk);
      assert key in ks <==> key in multiset(ks);
    }
  }

  lemma SortedKeysAscending(ws: seq<Word>, rnd: real -> int)
    ensures forall i, j :: 0 <= i < j < |SortedKeys(ws, rnd)| ==> SortedKeys(ws, rnd)[i] < SortedKeys(ws, rnd)[j]
  {
    var ks := KeysInOrder(ws, rnd);
    KeysInOrderMembers(ws, rnd);
    SortBySortedPermutation(ks, IntKey);
    SortByDistinct(ks, IntKey);
    var sk := SortedKeys(ws, rnd);
    forall i, j | 0 <= i < j < |sk| ensures sk[i] < sk[j] {
      assert IntKey(sk[i]) <= IntKey(sk[j]);
    }
  }

  /** Within a line, words are taken in ascending `x0` and none is lost or
      duplicated. */
  lemma LineWordsOrdered(ws: seq<Word>, rnd: real -> int, key: int)
    ensures SortedBy(SortBy(Bucket(ws, rnd, key), X0), X0)
    ensures multiset(SortBy(Bucket(ws, rnd, key), X0)) == multiset(Bucket(ws, rnd, key))
  {
    SortBySortedPermutation(Bucket(ws, rnd, key), X0);
  }

  /** A page's output holds exactly the lines whose row passes validation:
      every emitted row is a vehicle row, and the row of every listed line
      that is a vehicle row is emitted. */
  lemma {:induction false} RowsOfFilter(ws: seq<Word>, rnd: real -> int, keys: seq<int>)
    ensures forall row :: row in RowsOf(ws, rnd, keys) ==> IsVehicleRow(row)
    ensures forall key :: key in keys && IsVehicleRow(LineRow(ws, rnd, key)) ==>
      LineRow(ws, rnd, key) in RowsOf(ws, rnd, keys)
  {
    if keys != [] {
      var init, last := keys[..|keys| - 1], keys[|keys| - 1];
      RowsOfFilter(ws, rnd, init);
      var prev := RowsOf(ws, rnd, init);
      var tail := if IsVehicleRow(LineRow(ws, rnd, last)) then [LineRow(ws, rnd, last)] else [];
      assert RowsOf(ws, rnd, keys) == prev + tail;
      forall key | key in keys && IsVehicleRow(LineRow(ws, rnd, key))
        ensures LineRow(ws, rnd, key) in prev + tail
      {
        if key != last {
          assert key in init by {
            var i :| 0 <= i < |keys| && keys[i] == key;
            assert i < |keys| - 1 && init[i] == key;
          }
        }
      }
    }
  }

  // ---------------------------------------------------------------------
  // Header

  const CornerMarker := "【コーナー別出品車リスト】"

  /** Python's `parts.index(x)`: the first index holding `x`. */
  function IndexOf(parts: seq<string>, x: string): (r: Option<nat>)
    ensures r.Some? ==> r.value < |parts| && parts[r.value] == x && x !in parts[..r.value]
    ensures r.None? ==> x !in parts
  {
    if parts == [] then None
    else if parts[0] == x then Some(0)
    else
      match IndexOf(parts[1..], x)
      case None => None
      case Some(i) =>
        assert parts[..i + 1] == [parts[0]] + parts[1..][..i];
        Some(i + 1)
  }

  /** `parts[i] if len(parts) > i else ''`. */
  function PartOr(parts: seq<string>, i: nat): string {
    if |parts| > i then parts[i] else ""
  }

  /** `extract_header_info` on the text of the first page's top band. */
  function HeaderInfo(text: string): (h: map<string, string>)
    ensures text == "" ==> h == map[]
    ensures text != "" ==> h.Keys == {"auction_round", "auction_date", "auction_venue", "auction_corner"}
  {
    if text == "" then map[]
    else
      var parts := Split(text);
      var corner :=
        match IndexOf(parts, CornerMarker)
        case Some(i) => if |parts| > i + 1 then parts[i + 1] else ""
        case None => "";
      map["auction_round" := PartOr(parts, 0),
          "auction_date" := PartOr(parts, 2),
          "auction_venue" := PartOr(parts, 3),
          "auction_corner" := corner]
  }

  /** The corner is the word right after the first marker; it is empty
      exactly when the marker is missing or is the last word. */
  lemma CornerFollowsMarker(text: string)
    requires text != ""
    ensures var parts := Split(text);
      && (HeaderInfo(text)["auction_corner"] == "" <==>
           CornerMarker !in parts || (parts[|parts| - 1] == CornerMarker && CornerMarker !in parts[..|parts| - 1]))
      && (HeaderInfo(text)["auction_corner"] != "" ==>
           exists i :: 0 <= i < |parts| - 1 && parts[i] == CornerMarker && CornerMarker !in parts[..i]
                       && HeaderInfo(text)["auction_corner"] == parts[i + 1])
  {
    var parts := Split(text);
    match IndexOf(parts, CornerMarker)
    case None =>
    case Some(i) =>
      if i + 1 < |parts| {
        assert parts[i + 1] != "";
        assert parts[..|parts| - 1][i] == CornerMarker;
      } else {
        assert parts[..|parts| - 1] == parts[..i];
      }
  }

  /** A header line of space-separated words yields its first, third and
      fourth words as round, date and venue; a header too short for the
      date or the venue leaves them empty. */
  lemma HeaderFromWords(words: seq<string>)
    requires |words| >= 1
    requires forall i :: 0 <= i < |words| ==> words[i] != [] && NoSpace(words[i])
    ensures var h := HeaderInfo(Join(" ", words));
      && h["auction_round"] == words[0]
      && h["auction_date"] == (if |words| > 2 then words[2] else "")
      && h["auction_venue"] == (if |words| > 3 then words[3] else "")
  {
    var text := Join(" ", words);
    var parts, h := Split(text), HeaderInfo(text);
    if text != "" {
      assert "auction_round" in h && "auction_date" in h && "auction_venue" in h;
      assert h["auction_round"] == PartOr(parts, 0);
      assert h["auction_date"] == PartOr(parts, 2);
      assert h["auction_venue"] == PartOr(parts, 3);
    }
    SplitJoin(words);
    assert text != "";
  }

  // ---------------------------------------------------------------------
  // Documents

  /** A page: the text of its top band and its positioned words. */
  datatype Page = Page(header_text: string, words: seq<Word>)

  /** With more than three pages the last three are skipped. */
  function PagesToProcess(pages: seq<Page>): seq<Page> {
    if |pages| > 3 then pages[..|pages| - 3] else pages
  }

  function AllRows(pages: seq<Page>, rnd: real -> int): seq<Row> {
    if pages == [] then []
    else AllRows(pages[..|pages| - 1], rnd) + PageRows(pages[|pages| - 1].words, rnd)
  }

  /** What `extract_vehicles_from_pdf` returns: the header of the first page
      and the vehicle rows of the processed pages. */
  function Parse(pages: seq<Page>, rnd: real -> int): (map<string, string>, seq<Row>) {
    if pages == [] then (map[], [])
    else (HeaderInfo(pages[0].header_text), AllRows(PagesToProcess(pages), rnd))
  }

  /** The last three pages of a document with more than three pages never
      contribute rows: changing them leaves the rows unchanged. */
  lemma TrailingPagesIgnored(pages: seq<Page>, pages': seq<Page>, rnd: real -> int)
    requires |pages| == |pages'| > 3
    requires pages[..|pages| - 3] == pages'[..|pages'| - 3]
    ensures Parse(pages, rnd).1 == Parse(pages', rnd).1
  {
  }

  /** A page without words contributes no rows. */
  lemma EmptyPageContributesNothing(pages: seq<Page>, rnd: real -> int, h: string)
    ensures AllRows(pages + [Page(h, [])], rnd) == AllRows(pages, rnd)
  {
    assert (pages + [Page(h, [])])[..|pages|] == pages;
    assert KeysInOrder([], rnd) == [];
  }

  /** Every row of a parsed document is a vehicle row. */
  lemma {:induction false} ParsedRowsValid(pages: seq<Page>, rnd: real -> int)
    ensures forall row :: row in AllRows(pages, rnd) ==> IsVehicleRow(row)
  {
    if pages != [] {
      ParsedRowsValid(pages[..|pages| - 1], rnd);
      var ws := pages[|pages| - 1].words;
      RowsOfFilter(ws, rnd, SortedKeys(ws, rnd));
    }
  }

  // ---------------------------------------------------------------------
  // The parser as the source runs it

  /** Assigns each word of a line to the first column holding its centre
      and joins each column's words. */
  method BuildRow(lineWords: seq<Word>) returns (row: Row)
    ensures row == RowOf(lineWords)
  {
    var cells: seq<seq<string>> := seq(|Columns|, _ => []);
    for i := 0 to |lineWords|
      invariant |cells| == |Columns|
      invariant forall k :: 0 <= k < |Columns| ==> cells[k] == Texts(lineWords[..i], k)
    {
      var w := lineWords[i];
      assert lineWords[..i + 1][..i] == lineWords[..i];
      var j := 0;
      while j < |Columns|
        invariant 0 <= j <= |Columns|
        invariant FirstColumnFrom(Centre(w), j) == ColumnOf(w)
        invariant forall k :: 0 <= k < |Columns| ==> cells[k] == Texts(lineWords[..i], k)
      {
        var centre := (w.x0 + w.x1) / 2.0;
        if Columns[j].lo <= centre < Columns[j].hi {
          cells := cells[j := cells[j] + [w.text]];
          break;
        }
        j := j + 1;
      }
    }
    assert lineWords[..|lineWords|] == lineWords;
    assert cells == CellsOf(lineWords);
    row := RowFromCells(cells, |Columns|);
  }

  /** Fills the `lines` dictionary: each rounded top maps to its words in
      their original order; `order` lists the keys as they were added. */
  method GroupLines(words: seq<Word>, rnd: real -> int)
    returns (lines: map<int, seq<Word>>, order: seq<int>)
    ensures order == KeysInOrder(words, rnd)
    ensures forall key :: key in lines <==> key in order
    ensures forall key :: key in lines ==> lines[key] == Bucket(words, rnd, key)
  {
    lines := map[];
    order := [];
    for i := 0 to |words|
      invariant order == KeysInOrder(words[..i], rnd)
      invariant forall key :: key in lines <==> key in order
      invariant forall key :: key in lines ==> lines[key] == Bucket(words[..i], rnd, key)
    {
      assert words[..i + 1][..i] == words[..i];
      var key := rnd(words[i].top);
      if key !in lines {
        NewKeyHasEmptyBucket(words[..i], rnd, key);
        lines := lines[key := []];
        order := order + [key];
      }
      lines := lines[key := lines[key] + [words[i]]];
    }
    assert words[..|words|] == words;
  }

  lemma NewKeyHasEmptyBucket(ws: seq<Word>, rnd: real -> int, key: int)
    requires key !in KeysInOrder(ws, rnd)
    ensures Bucket(ws, rnd, key) == []
  {
    KeysInOrderMembers(ws, rnd);
    if Bucket(ws, rnd, key) != [] {
      var w := Bucket(ws, rnd, key)[0];
      BucketMembers(ws, rnd, key, w);
    }
  }

  /** Emits the vehicle rows of one page, line by line in ascending key
      order. */
  method ParsePage(words: seq<Word>, rnd: real -> int) returns (rows: seq<Row>)
    ensures rows == PageRows(words, rnd)
  {
    var lines, order := GroupLines(words, rnd);
    var keys := SortBy(order, IntKey);
    assert forall i :: 0 <= i < |keys| ==> keys[i] in lines by {
      SortBySortedPermutation(order, IntKey);
      forall i | 0 <= i < |keys|
        ensures keys[i] in order
      {
        assert keys[i] in multiset(keys);
      }
    }
    rows := EmitRows(words, rnd, lines, keys);
  }

  /** The loop over the sorted line keys: each line's words are sorted by
      `x0`, assigned to columns, and the row is kept when its auction number
      is all digits. */
  method EmitRows(words: seq<Word>, rnd: real -> int, lines: map<int, seq<Word>>, keys: seq<int>)
    returns (rows: seq<Row>)
    requires forall i :: 0 <= i < |keys| ==> keys[i] in lines
    requires forall key :: key in lines ==> lines[key] == Bucket(words, rnd, key)
    ensures rows == RowsOf(words, rnd, keys)
  {
    rows := [];
    for j := 0 to |keys|
      invariant rows == RowsOf(words, rnd, keys[..j])
    {
      var lineWords := SortBy(lines[keys[j]], X0);
      var row := BuildRow(lineWords);
      var auctionNo := Strip(if "auction_no" in row then row["auction_no"] else "");
      RowsOfStep(words, rnd, keys, j);
      if auctionNo != "" && IsDigits(auctionNo) {
        rows := rows + [row];
      }
    }
    assert keys[..|keys|] == keys;
  }

  /** One more line key: its row is appended when it is a vehicle row. */
  lemma RowsOfStep(ws: seq<Word>, rnd: real -> int, keys: seq<int>, j: nat)
    requires j < |keys|
    ensures RowsOf(ws, rnd, keys[..j + 1]) == RowsOf(ws, rnd, keys[..j])
      + (if IsVehicleRow(LineRow(ws, rnd, keys[j])) then [LineRow(ws, rnd, keys[j])] else [])
  {
    assert keys[..j + 1][..j] == keys[..j];
  }

  /** `extract_vehicles_from_pdf`, on the pages the PDF library would read. */
  method ExtractVehiclesFromPdf(pages: seq<Page>, rnd: real -> int)
    returns (header: map<string, string>, vehicles: seq<Row>)
    ensures (header, vehicles) == Parse(pages, rnd)
  {
    if pages == [] {
      return map[], [];
    }
    header := HeaderInfo(pages[0].header_text);
    vehicles := ProcessPages(PagesToProcess(pages), rnd);
  }

  /** The page loop: the rows of each page, in page order, skipping pages
      without words. */
  method ProcessPages(pages: seq<Page>, rnd: real -> int) returns (vehicles: seq<Row>)
    ensures vehicles == AllRows(pages, rnd)
  {
    vehicles := [];
    for p := 0 to |pages|
      invariant vehicles == AllRows(pages[..p], rnd)
    {
      assert pages[..p + 1][..p] == pages[..p];
      var words := pages[p].words;
      if words == [] {
        assert KeysInOrder(words, rnd) == [];
        continue;
      }
      var rows := ParsePage(words, rnd);
      vehicles := vehicles + rows;
    }
    assert pages[..|pages|] == pages;
  }
}

/** `import_market_prices.py`: auction sale lines are tagged from their
    free-text details, grouped by item, engine model and tags, and each
    group's price statistics are written into the price catalog. */
module MarketPrices {
  import opened Wrappers
  import opened Text
  import opened Store
  import opened Valuation

  // ---------------------------------------------------------------------
  // String order, as Python's `sorted` uses it
  // ---------------------------------------------------------------------

  /** Python's `a < b` on strings: lexicographic by code point, a proper
      prefix first. */
  predicate Less(a: string, b: string)
    decreases |a|
  {
    if a == [] then b != []
    else if b == [] then false
    else if a[0] != b[0] then a[0] < b[0]
    else Less(a[1..], b[1..])
  }

  lemma {:induction false} LessIrreflexive(a: string)
    ensures !Less(a, a)
    decreases |a|
  {
    if a != [] {
      LessIrreflexive(a[1..]);
    }
  }

  lemma {:induction false} LessTransitive(a: string, b: string, c: string)
    requires Less(a, b) && Less(b, c)
    ensures Less(a, c)
    decreases |a|
  {
    if a != [] && a[0] == b[0] && b[0] == c[0] {
      LessTransitive(a[1..], b[1..], c[1..]);
    }
  }

  lemma {:induction false} LessTotal(a: string, b: string)
    ensures a == b || Less(a, b) || Less(b, a)
    decreases |a|
  {
    if a != [] && b != [] && a[0] == b[0] {
      LessTotal(a[1..], b[1..]);
      if a[1..] == b[1..] {
        assert a == [a[0]] + a[1..] && b == [b[0]] + b[1..];
      }
    }
  }

  /** Every element before every later one: what `sorted` returns for a set. */
  predicate Increasing(s: seq<string>) {
    forall i, j :: 0 <= i < j < |s| ==> Less(s[i], s[j])
  }

  /** Two increasing sequences with the same elements are equal: `sorted`
      of a set is determined by the set alone. */
  lemma {:induction false} IncreasingUnique(a: seq<string>, b: seq<string>)
    requires Increasing(a) && Increasing(b)
    requires forall t :: t in a <==> t in b
    ensures a == b
    decreases |a|
  {
    assert a == [] <==> b == [] by {
      if a != [] { assert a[0] in a; }
      if b != [] { assert b[0] in b; }
    }
    if a != [] {
      assert a[0] in b && b[0] in a;
      var k :| 0 <= k < |b| && b[k] == a[0];
      var m :| 0 <= m < |a| && a[m] == b[0];
      if k > 0 && m > 0 {
        LessTransitive(a[0], b[0], a[0]);
        LessIrreflexive(a[0]);
        assert false;
      }
      assert a[0] == b[0];
      forall t | t in a[1..]
        ensures t in b[1..]
      {
        var j :| 0 <= j < |a[1..]| && a[1..][j] == t;
        assert Less(a[0], a[j + 1]);
        LessIrreflexive(t);
        assert t in b && t != b[0];
        var i :| 0 <= i < |b| && b[i] == t;
        assert b[1..][i - 1] == t;
      }
      forall t | t in b[1..]
        ensures t in a[1..]
      {
        var j :| 0 <= j < |b[1..]| && b[1..][j] == t;
        assert Less(b[0], b[j + 1]);
        LessIrreflexive(t);
        assert t in a && t != a[0];
        var i :| 0 <= i < |a| && a[i] == t;
        assert a[1..][i - 1] == t;
      }
      IncreasingUnique(a[1..], b[1..]);
      assert a == [a[0]] + a[1..] && b == [b[0]] + b[1..];
    }
  }

  // ---------------------------------------------------------------------
  // parse_details_to_tags
  // ---------------------------------------------------------------------

  /** Every tag the parser can produce, in sorted order. */
  const Vocabulary: seq<string> := ["4wd", "no_catalyst", "with_catalyst", "with_suspension"]

  const CatalystRemoved: string := "触媒外し"
  const Catalyst: string := "触媒"
  const SuspensionSet: string := "足セット"
  const FourWheelDrive: string := "4wd"

  /** The tags of a detail text, matched in its lower-cased form: a removed
      catalyst, else a catalyst; a suspension set; four-wheel drive. */
  function TagSet(detail: string): (tags: set<string>)
    ensures forall t :: t in tags ==> t in Vocabulary
    ensures "no_catalyst" in tags <==> Contains(Lower(detail), CatalystRemoved)
    ensures "with_catalyst" in tags <==> Contains(Lower(detail), Catalyst) && !Contains(Lower(detail), CatalystRemoved)
    ensures !("no_catalyst" in tags && "with_catalyst" in tags)
    ensures "with_suspension" in tags <==> Contains(Lower(detail), SuspensionSet)
    ensures "4wd" in tags <==> Contains(Lower(detail), FourWheelDrive)
  {
    var lower := Lower(detail);
    (if Contains(lower, CatalystRemoved) then {"no_catalyst"}
     else if Contains(lower, Catalyst) then {"with_catalyst"}
     else {})
    + (if Contains(lower, SuspensionSet) then {"with_suspension"} else {})
    + (if Contains(lower, FourWheelDrive) then {"4wd"} else {})
  }

  /** The elements of `s` that are in `tags`, in the order of `s`. */
  function Filter(s: seq<string>, tags: set<string>): (r: seq<string>)
    ensures forall t :: t in r <==> t in s && t in tags
  {
    if s == [] then []
    else (if s[0] in tags then [s[0]] else []) + Filter(s[1..], tags)
  }

  /** `sorted(list(tags))` for tags of the vocabulary, which is already in
      order. */
  function SortedTags(tags: set<string>): seq<string> {
    Filter(Vocabulary, tags)
  }

  /** `parse_details_to_tags`: a non-string cell (NaN, a number, `None`) is
      `standard`; otherwise the sorted tags joined with commas, or
      `standard` when there are none. */
  function ParseDetailsToTags(detail: Scalar): (r: string)
    ensures !detail.Str? ==> r == "standard"
    ensures detail.Str? && TagSet(detail.s) == {} ==> r == "standard"
  {
    if !detail.Str? then "standard"
    else
      var tags := TagSet(detail.s);
      if tags == {} then "standard" else Join(",", SortedTags(tags))
  }

  lemma VocabularyIncreasing()
    ensures Increasing(Vocabulary)
  {
    var v := Vocabulary;
    CommonPrefixLess(v[0], v[1], 0);
    CommonPrefixLess(v[1], v[2], 0);
    CommonPrefixLess(v[2], v[3], 5);
    ChainIncreasing(v);
  }

  /** Four strings each below the next are increasing. */
  lemma ChainIncreasing(s: seq<string>)
    requires |s| == 4 && Less(s[0], s[1]) && Less(s[1], s[2]) && Less(s[2], s[3])
    ensures Increasing(s)
  {
    LessTransitive(s[0], s[1], s[2]);
    LessTransitive(s[1], s[2], s[3]);
    LessTransitive(s[0], s[2], s[3]);
  }

  /** Strings that agree on their first `n` characters are ordered by the
      next one. */
  lemma {:induction false} CommonPrefixLess(a: string, b: string, n: nat)
    requires n < |a| && n < |b| && a[n] < b[n]
    requires forall i :: 0 <= i < n ==> a[i] == b[i]
    ensures Less(a, b)
    decreases n
  {
    if n > 0 {
      CommonPrefixLess(a[1..], b[1..], n - 1);
    }
  }

  lemma {:induction false} FilterIncreasing(s: seq<string>, tags: set<string>)
    requires Increasing(s)
    ensures Increasing(Filter(s, tags))
    decreases |s|
  {
    if s != [] {
      FilterIncreasing(s[1..], tags);
      var rest := Filter(s[1..], tags);
      forall j | 0 <= j < |rest|
        ensures Less(s[0], rest[j])
      {
        assert rest[j] in s[1..];
        var i :| 0 <= i < |s[1..]| && s[1..][i] == rest[j];
        assert s[i + 1] == rest[j];
      }
    }
  }

  /** The sorted tag list is increasing and holds exactly the tags. */
  lemma SortedTagsSorted(tags: set<string>)
    requires forall t :: t in tags ==> t in Vocabulary
    ensures Increasing(SortedTags(tags))
    ensures forall t :: t in SortedTags(tags) <==> t in tags
  {
    VocabularyIncreasing();
    FilterIncreasing(Vocabulary, tags);
  }

  /** The tag list of the model is Python's `sorted(list(tags))`: any
      increasing list of exactly the tags is that list. */
  lemma SortedTagsArePythonSorted(tags: set<string>, l: seq<string>)
    requires forall t :: t in tags ==> t in Vocabulary
    requires Increasing(l)
    requires forall t :: t in l <==> t in tags
    ensures l == SortedTags(tags)
  {
    SortedTagsSorted(tags);
    IncreasingUnique(l, SortedTags(tags));
  }

  /** The text of a non-empty tag set is the sorted tags joined with commas,
      and it is never `standard`, so `standard` means exactly "no tags". */
  lemma DetailTags(detail: string)
    ensures ParseDetailsToTags(Str(detail)) == "standard" <==> TagSet(detail) == {}
    ensures TagSet(detail) != {} ==>
      ParseDetailsToTags(Str(detail)) == Join(",", SortedTags(TagSet(detail)))
      && Increasing(SortedTags(TagSet(detail)))
      && forall t :: t in SortedTags(TagSet(detail)) <==> t in TagSet(detail)
  {
    var tags := TagSet(detail);
    if tags != {} {
      SortedTagsSorted(tags);
      var l := SortedTags(tags);
      assert l != [] by {
        var t :| t in tags;
        assert t in l;
      }
      assert l[0] in Vocabulary by {
        assert l[0] in l;
      }
      JoinedTagsNotStandard(l);
    }
  }

  /** No tag is `standard`, and a joined list of several has a comma right
      after its first tag, where `standard` has none. */
  lemma JoinedTagsNotStandard(l: seq<string>)
    requires l != [] && l[0] in Vocabulary
    ensures Join(",", l) != "standard"
  {
    if |l| > 1 {
      var j := Join(",", l);
      assert j == l[0] + "," + Join(",", l[1..]);
      assert j[|l[0]|] == ',';
      assert "standard"[3] != ',';
    }
  }

  /** A detail that removes the catalyst also mentions the catalyst, so the
      two catalyst tags together say exactly whether the catalyst is
      mentioned. */
  lemma CatalystMentioned(detail: string)
    ensures ("no_catalyst" in TagSet(detail) || "with_catalyst" in TagSet(detail))
      <==> Contains(Lower(detail), Catalyst)
  {
    var lower := Lower(detail);
    if Contains(lower, CatalystRemoved) {
      var i :| 0 <= i <= |lower| - |CatalystRemoved| && OccursAt(lower, CatalystRemoved, i);
      assert lower[i..i + 2] == lower[i..i + 4][..2];
      assert OccursAt(lower, Catalyst, i);
    }
  }

  /** Characters `lower` leaves alone and that no other character lowers to. */
  predicate Caseless(c: char) {
    !('A' <= c <= 'Z') && !('a' <= c <= 'z')
    && !('\U{FF21}' <= c <= '\U{FF3A}') && !('\U{FF41}' <= c <= '\U{FF5A}')
  }

  /** A word without Latin letters is found in the lower-cased detail exactly
      when it is found in the detail itself. */
  lemma CaselessWord(detail: string, w: string)
    requires forall i :: 0 <= i < |w| ==> Caseless(w[i])
    ensures Contains(Lower(detail), w) <==> Contains(detail, w)
  {
    var lower := Lower(detail);
    if Contains(lower, w) {
      var i :| 0 <= i <= |lower| - |w| && OccursAt(lower, w, i);
      forall j | 0 <= j < |w|
        ensures detail[i + j] == w[j]
      {
        assert lower[i..i + |w|][j] == w[j];
      }
      assert detail[i..i + |w|] == w;
      assert OccursAt(detail, w, i);
    }
    if Contains(detail, w) {
      var i :| 0 <= i <= |detail| - |w| && OccursAt(detail, w, i);
      forall j | 0 <= j < |w|
        ensures lower[i + j] == w[j]
      {
        assert detail[i..i + |w|][j] == w[j];
      }
      assert lower[i..i + |w|] == w;
      assert OccursAt(lower, w, i);
    }
  }

  /** The Japanese keywords are matched in the detail as written. */
  lemma JapaneseKeywords(detail: string)
    ensures "no_catalyst" in TagSet(detail) <==> Contains(detail, CatalystRemoved)
    ensures "with_catalyst" in TagSet(detail) <==> Contains(detail, Catalyst) && !Contains(detail, CatalystRemoved)
    ensures "with_suspension" in TagSet(detail) <==> Contains(detail, SuspensionSet)
  {
    CaselessWord(detail, CatalystRemoved);
    CaselessWord(detail, Catalyst);
    CaselessWord(detail, SuspensionSet);
  }

  /** "4WD" is found whatever the case of its letters. */
  lemma FourWheelDriveAnyCase(detail: string, i: nat)
    requires i + 3 <= |detail|
    requires detail[i] == '4'
    requires detail[i + 1] == 'w' || detail[i + 1] == 'W'
    requires detail[i + 2] == 'd' || detail[i + 2] == 'D'
    ensures "4wd" in TagSet(detail)
  {
    var lower := Lower(detail);
    assert lower[i..i + 3] == FourWheelDrive;
    assert OccursAt(lower, FourWheelDrive, i);
  }

  // ---------------------------------------------------------------------
  // run_import
  // ---------------------------------------------------------------------

  /** One sale line of the auction workbook: the item (`品名`), the engine
      model (`E/G型式`, absent when the cell is empty), the details cell
      (`詳細`), and the price and date cells the statistics read. */
  datatype SaleLine = SaleLine(item_name: Option<string>, engine_model: Option<string>, details: Scalar, cells: Record)

  /** A group of sale lines: item, engine model and detail tags. */
  datatype GroupKey = GroupKey(item_name: string, engine_model: string, tags: string)

  /** Lines with an empty engine model are dropped, and `groupby` drops the
      lines whose item is empty. */
  predicate Grouped(l: SaleLine) {
    l.item_name.Some? && l.engine_model.Some?
  }

  function KeyOf(l: SaleLine): GroupKey
    requires Grouped(l)
  {
    GroupKey(l.item_name.value, l.engine_model.value, ParseDetailsToTags(l.details))
  }

  predicate InGroup(l: SaleLine, k: GroupKey) {
    Grouped(l) && KeyOf(l) == k
  }

  /** The distinct group keys, in order of first appearance. */
  function Keys(lines: seq<SaleLine>): (ks: seq<GroupKey>)
    ensures forall i, j :: 0 <= i < j < |ks| ==> ks[i] != ks[j]
    ensures forall k :: k in ks <==> exists i :: 0 <= i < |lines| && InGroup(lines[i], k)
  {
    if lines == [] then []
    else
      var prev := Keys(lines[..|lines| - 1]);
      var l := lines[|lines| - 1];
      assert forall i :: 0 <= i < |lines| - 1 ==> lines[..|lines| - 1][i] == lines[i];
      if Grouped(l) && KeyOf(l) !in prev then prev + [KeyOf(l)] else prev
  }

  /** The lines of one group, in workbook order. */
  function Members(lines: seq<SaleLine>, k: GroupKey): (g: seq<SaleLine>)
    ensures forall l :: l in g <==> l in lines && InGroup(l, k)
    ensures |g| <= |lines|
  {
    if lines == [] then []
    else
      var l := lines[|lines| - 1];
      Members(lines[..|lines| - 1], k) + (if InGroup(l, k) then [l] else [])
  }

  /** `g` is `lines` at the increasing positions `idx`, and these are
      exactly the positions of the lines of group `k`. */
  ghost predicate AtPositions(lines: seq<SaleLine>, k: GroupKey, idx: seq<nat>, g: seq<SaleLine>) {
    && |idx| == |g|
    && (forall t :: 0 <= t < |idx| ==> idx[t] < |lines| && g[t] == lines[idx[t]])
    && (forall t, u :: 0 <= t < u < |idx| ==> idx[t] < idx[u])
    && (forall i :: 0 <= i < |lines| ==> (InGroup(lines[i], k) <==> i in idx))
  }

  /** A group's lines keep their workbook order: they are the workbook at
      the group's positions, in increasing order, so its mean and latest
      price see the lines as the workbook lists them. */
  lemma MembersInOrder(lines: seq<SaleLine>, k: GroupKey)
    ensures exists idx :: AtPositions(lines, k, idx, Members(lines, k))
  {
    var idx := MembersPositions(lines, k);
  }

  lemma {:induction false} MembersPositions(lines: seq<SaleLine>, k: GroupKey) returns (idx: seq<nat>)
    ensures AtPositions(lines, k, idx, Members(lines, k))
  {
    if lines == [] {
      idx := [];
    } else {
      var init, l := lines[..|lines| - 1], lines[|lines| - 1];
      assert lines == init + [l];
      var idx0 := MembersPositions(init, k);
      idx := PositionsStep(init, l, k, idx0, Members(init, k));
    }
  }

  /** One more line: its position joins the group's positions exactly when
      the line belongs to the group. */
  lemma PositionsStep(init: seq<SaleLine>, l: SaleLine, k: GroupKey, idx0: seq<nat>, g0: seq<SaleLine>)
    returns (idx: seq<nat>)
    requires AtPositions(init, k, idx0, g0)
    ensures AtPositions(init + [l], k, idx, g0 + (if InGroup(l, k) then [l] else []))
  {
    if InGroup(l, k) {
      idx := PositionsGrow(init, l, k, idx0, g0);
    } else {
      PositionsKeep(init, l, k, idx0, g0);
      assert g0 + [] == g0;
      idx := idx0;
    }
  }

  lemma PositionsGrow(init: seq<SaleLine>, l: SaleLine, k: GroupKey, idx0: seq<nat>, g0: seq<SaleLine>)
    returns (idx: seq<nat>)
    requires AtPositions(init, k, idx0, g0) && InGroup(l, k)
    ensures AtPositions(init + [l], k, idx, g0 + [l])
  {
    var lines := init + [l];
    idx := idx0 + [|init|];
    var g := g0 + [l];
    forall t | 0 <= t < |idx|
      ensures idx[t] < |lines| && g[t] == lines[idx[t]]
    {
      if t < |idx0| {
        assert idx[t] == idx0[t] && g[t] == g0[t];
      }
    }
    forall i | 0 <= i < |lines|
      ensures InGroup(lines[i], k) <==> i in idx
    {
      if i < |init| {
        assert lines[i] == init[i];
        assert i in idx <==> i in idx0;
      }
    }
  }

  lemma PositionsKeep(init: seq<SaleLine>, l: SaleLine, k: GroupKey, idx0: seq<nat>, g0: seq<SaleLine>)
    requires AtPositions(init, k, idx0, g0) && !InGroup(l, k)
    ensures AtPositions(init + [l], k, idx0, g0)
  {
    var lines := init + [l];
    forall t | 0 <= t < |idx0|
      ensures idx0[t] < |lines| && g0[t] == lines[idx0[t]]
    {
      assert lines[idx0[t]] == init[idx0[t]];
    }
    forall i | 0 <= i < |lines|
      ensures InGroup(lines[i], k) <==> i in idx0
    {
      if i < |init| {
        assert lines[i] == init[i];
      } else {
        assert |init| !in idx0;
      }
    }
  }

  /** `first()` of the catalog query for a group key: rows with the group's
      item, engine model and tags, whatever their model code. */
  predicate Matches(c: ComponentValue, k: GroupKey) {
    c.item_name == k.item_name && c.engine_model == Some(k.engine_model) && c.details_tags == Some(k.tags)
  }

  function FirstMatch(catalog: seq<ComponentValue>, k: GroupKey, from: nat): (r: Option<nat>)
    requires from <= |catalog|
    ensures r.Some? ==> from <= r.value < |catalog| && Matches(catalog[r.value], k)
    ensures r.Some? ==> forall j :: from <= j < r.value ==> !Matches(catalog[j], k)
    ensures r.None? ==> forall j :: from <= j < |catalog| ==> !Matches(catalog[j], k)
    decreases |catalog| - from
  {
    if from == |catalog| then None
    else if Matches(catalog[from], k) then Some(from)
    else FirstMatch(catalog, k, from + 1)
  }

  /** The statistics of one group. */
  datatype Stats = Stats(latest_price: real, average_price: real, sample_size: int)

  /** The price statistics are taken as given functions of a group's lines:
      the mean of `単価`, and `単価` of the line last by `日付`. */
  function StatsOf(lines: seq<SaleLine>, k: GroupKey, mean: seq<SaleLine> -> real, latest: seq<SaleLine> -> real): Stats {
    var g := Members(lines, k);
    Stats(latest(g), mean(g), |g|)
  }

  function Updated(c: ComponentValue, s: Stats): ComponentValue {
    c.(latest_price := s.latest_price, average_price := s.average_price, sample_size := s.sample_size)
  }

  /** A fresh catalog row for a group: no model code. */
  function NewRow(k: GroupKey, s: Stats): ComponentValue {
    ComponentValue(k.item_name, None, Some(k.engine_model), Some(k.tags), s.latest_price, s.average_price, s.sample_size)
  }

  /** One iteration of the group loop: the statistics overwrite the first
      matching row, or a new row is appended. */
  function Stored(catalog: seq<ComponentValue>, k: GroupKey, s: Stats): seq<ComponentValue> {
    match FirstMatch(catalog, k, 0)
    case Some(i) => catalog[i := Updated(catalog[i], s)]
    case None => catalog + [NewRow(k, s)]
  }

  /** The group loop over the keys `ks`, in order. */
  function Imported(catalog: seq<ComponentValue>, lines: seq<SaleLine>, ks: seq<GroupKey>,
                    mean: seq<SaleLine> -> real, latest: seq<SaleLine> -> real): seq<ComponentValue>
  {
    if ks == [] then catalog
    else
      var k := ks[|ks| - 1];
      Stored(Imported(catalog, lines, ks[..|ks| - 1], mean, latest), k, StatsOf(lines, k, mean, latest))
  }

  /** The columns the script reads, in the order it first reads them: the
      engine model (`dropna`), the details (`apply`), the group keys
      (`groupby`), and, once per group, the unit price and the date. */
  const EngineColumn: string := "E/G型式"
  const DetailsColumn: string := "詳細"
  const ItemColumn: string := "品名"
  const PriceColumn: string := "単価"
  const DateColumn: string := "日付"

  /** A column is found when some header, stripped of surrounding spaces,
      carries its name. */
  predicate HasColumn(headers: seq<string>, name: string) {
    exists i :: 0 <= i < |headers| && Strip(headers[i]) == name
  }

  /** The `KeyError` of the run, if any: the first column read that the
      workbook lacks. The per-group columns are read only when there is a
      group. */
  function MissingColumn(headers: seq<string>, lines: seq<SaleLine>): (r: Option<string>)
    ensures r.None? <==>
      (HasColumn(headers, EngineColumn) && HasColumn(headers, DetailsColumn) && HasColumn(headers, ItemColumn)
       && (Keys(lines) != [] ==> HasColumn(headers, PriceColumn) && HasColumn(headers, DateColumn)))
  {
    if !HasColumn(headers, EngineColumn) then Some(EngineColumn)
    else if !HasColumn(headers, DetailsColumn) then Some(DetailsColumn)
    else if !HasColumn(headers, ItemColumn) then Some(ItemColumn)
    else if Keys(lines) == [] then None
    else if !HasColumn(headers, PriceColumn) then Some(PriceColumn)
    else if !HasColumn(headers, DateColumn) then Some(DateColumn)
    else None
  }

  /** The catalog after a run: every group written and committed, or, on a
      missing column, nothing committed. */
  function RunImportSpec(catalog: seq<ComponentValue>, headers: seq<string>, lines: seq<SaleLine>,
                         mean: seq<SaleLine> -> real, latest: seq<SaleLine> -> real): seq<ComponentValue>
  {
    if MissingColumn(headers, lines).Some? then catalog
    else Imported(catalog, lines, Keys(lines), mean, latest)
  }

  // ---------------------------------------------------------------------
  // Groups partition the kept lines
  // ---------------------------------------------------------------------

  /** The number of lines that survive `dropna` and `groupby`. */
  function KeptCount(lines: seq<SaleLine>): nat {
    if lines == [] then 0
    else KeptCount(lines[..|lines| - 1]) + (if Grouped(lines[|lines| - 1]) then 1 else 0)
  }

  /** The sum of the sample sizes of the groups `ks`. */
  function SizeSum(lines: seq<SaleLine>, ks: seq<GroupKey>): nat {
    if ks == [] then 0
    else SizeSum(lines, ks[..|ks| - 1]) + |Members(lines, ks[|ks| - 1])|
  }

  lemma MembersAppend(lines: seq<SaleLine>, l: SaleLine, k: GroupKey)
    ensures Members(lines + [l], k) == Members(lines, k) + (if InGroup(l, k) then [l] else [])
  {
    assert (lines + [l])[..|lines|] == lines;
  }

  lemma MembersOfOtherKey(lines: seq<SaleLine>, k: GroupKey)
    requires k !in Keys(lines)
    ensures Members(lines, k) == []
  {
  }

  lemma {:induction false} SizeSumAppend(lines: seq<SaleLine>, l: SaleLine, ks: seq<GroupKey>)
    requires forall i, j :: 0 <= i < j < |ks| ==> ks[i] != ks[j]
    ensures SizeSum(lines + [l], ks) == SizeSum(lines, ks) + (if Grouped(l) && KeyOf(l) in ks then 1 else 0)
  {
    if ks != [] {
      var front, k := ks[..|ks| - 1], ks[|ks| - 1];
      SizeSumAppend(lines, l, front);
      var inFront := Grouped(l) && KeyOf(l) in front;
      assert (Grouped(l) && KeyOf(l) in ks) == (inFront || InGroup(l, k)) by {
        assert ks == front + [k];
      }
      assert !(InGroup(l, k) && inFront);
      assert |Members(lines + [l], k)| == |Members(lines, k)| + (if InGroup(l, k) then 1 else 0) by {
        MembersAppend(lines, l, k);
      }
    }
  }

  /** Every kept line is counted in exactly one group: the sample sizes of
      the groups add up to the number of kept lines. */
  lemma {:induction false} GroupsPartitionLines(lines: seq<SaleLine>)
    ensures SizeSum(lines, Keys(lines)) == KeptCount(lines)
  {
    if lines != [] {
      var p, l := lines[..|lines| - 1], lines[|lines| - 1];
      assert lines == p + [l];
      GroupsPartitionLines(p);
      SizeSumAppend(p, l, Keys(p));
      assert KeptCount(lines) == KeptCount(p) + (if Grouped(l) then 1 else 0);
      if Grouped(l) && KeyOf(l) !in Keys(p) {
        var ks := Keys(p) + [KeyOf(l)];
        assert Keys(lines) == ks;
        assert SizeSum(lines, ks) == SizeSum(lines, Keys(p)) + |Members(lines, KeyOf(l))| by {
          assert ks[..|ks| - 1] == Keys(p);
        }
        assert |Members(lines, KeyOf(l))| == 1 by {
          MembersAppend(p, l, KeyOf(l));
          MembersOfOtherKey(p, KeyOf(l));
        }
      } else {
        assert Keys(lines) == Keys(p);
      }
    }
  }

  // ---------------------------------------------------------------------
  // What the group loop does to the catalog
  // ---------------------------------------------------------------------

  /** Two rows with the same identifying columns. */
  predicate SameKey(a: ComponentValue, b: ComponentValue) {
    a.item_name == b.item_name && a.model_code == b.model_code
    && a.engine_model == b.engine_model && a.details_tags == b.details_tags
  }

  /** A row of group `k` carrying the statistics `s`. */
  predicate Carries(c: ComponentValue, k: GroupKey, s: Stats) {
    Matches(c, k) && c.latest_price == s.latest_price && c.average_price == s.average_price
    && c.sample_size == s.sample_size
  }

  /** The first match is decided by the matching pattern alone: a catalog
      that agrees on a prefix and has no match beyond it finds the same
      row. */
  lemma FirstMatchAgrees(a: seq<ComponentValue>, b: seq<ComponentValue>, k: GroupKey)
    requires |a| <= |b|
    requires forall j :: 0 <= j < |a| ==> (Matches(a[j], k) <==> Matches(b[j], k))
    ensures FirstMatch(a, k, 0).Some? ==> FirstMatch(b, k, 0) == FirstMatch(a, k, 0)
    ensures FirstMatch(b, k, 0).Some? && FirstMatch(b, k, 0).value < |a| ==> FirstMatch(a, k, 0) == FirstMatch(b, k, 0)
    ensures (forall j :: |a| <= j < |b| ==> !Matches(b[j], k)) ==> FirstMatch(a, k, 0) == FirstMatch(b, k, 0)
  {
    var ra, rb := FirstMatch(a, k, 0), FirstMatch(b, k, 0);
    if ra.Some? {
      assert Matches(b[ra.value], k);
      assert rb.Some? && rb.value <= ra.value;
      assert Matches(a[rb.value], k);
    }
    if rb.Some? && rb.value < |a| {
      assert Matches(a[rb.value], k);
    }
  }

  lemma StoredFacts(catalog: seq<ComponentValue>, k: GroupKey, s: Stats)
    ensures var r := Stored(catalog, k, s);
      && |r| == |catalog| + (if FirstMatch(catalog, k, 0).None? then 1 else 0)
      && (forall i :: 0 <= i < |catalog| ==> SameKey(r[i], catalog[i]))
      && (forall i :: 0 <= i < |catalog| && FirstMatch(catalog, k, 0) != Some(i) ==> r[i] == catalog[i])
      && (forall i :: |catalog| <= i < |r| ==> r[i] == NewRow(k, s))
      && FirstMatch(r, k, 0).Some? && Carries(r[FirstMatch(r, k, 0).value], k, s)
      && (FirstMatch(catalog, k, 0).Some? ==> FirstMatch(r, k, 0) == FirstMatch(catalog, k, 0))
      && forall k2 :: k2 != k ==> FirstMatch(r, k2, 0) == FirstMatch(catalog, k2, 0)
  {
    StoredRows(catalog, k, s);
    StoredOwnMatch(catalog, k, s);
    StoredOtherMatches(catalog, k, s);
  }

  lemma StoredRows(catalog: seq<ComponentValue>, k: GroupKey, s: Stats)
    ensures var r := Stored(catalog, k, s);
      && |r| == |catalog| + (if FirstMatch(catalog, k, 0).None? then 1 else 0)
      && (forall i :: 0 <= i < |catalog| ==> SameKey(r[i], catalog[i]))
      && (forall i :: 0 <= i < |catalog| && FirstMatch(catalog, k, 0) != Some(i) ==> r[i] == catalog[i])
      && (forall i :: |catalog| <= i < |r| ==> r[i] == NewRow(k, s))
  {
  }

  lemma StoredOwnMatch(catalog: seq<ComponentValue>, k: GroupKey, s: Stats)
    ensures var r := Stored(catalog, k, s);
      && FirstMatch(r, k, 0).Some? && Carries(r[FirstMatch(r, k, 0).value], k, s)
      && (FirstMatch(catalog, k, 0).Some? ==> FirstMatch(r, k, 0) == FirstMatch(catalog, k, 0))
  {
    var r := Stored(catalog, k, s);
    FirstMatchAgrees(catalog, r, k);
    match FirstMatch(catalog, k, 0)
    case Some(i) =>
      assert r[i] == Updated(catalog[i], s);
    case None =>
      assert r[|catalog|] == NewRow(k, s);
      assert FirstMatch(r, k, 0) == Some(|catalog|);
  }

  lemma StoredOtherMatches(catalog: seq<ComponentValue>, k: GroupKey, s: Stats)
    ensures forall k2 :: k2 != k ==> FirstMatch(Stored(catalog, k, s), k2, 0) == FirstMatch(catalog, k2, 0)
  {
    var r := Stored(catalog, k, s);
    forall k2 | k2 != k
      ensures FirstMatch(r, k2, 0) == FirstMatch(catalog, k2, 0)
    {
      FirstMatchAgrees(catalog, r, k2);
    }
  }

  predicate DistinctKeys(ks: seq<GroupKey>) {
    forall i, j :: 0 <= i < j < |ks| ==> ks[i] != ks[j]
  }

  /** The number of groups among `ks` that the catalog has no row for. */
  function Unmatched(catalog: seq<ComponentValue>, ks: seq<GroupKey>): nat {
    if ks == [] then 0
    else Unmatched(catalog, ks[..|ks| - 1]) + (if FirstMatch(catalog, ks[|ks| - 1], 0).None? then 1 else 0)
  }

  /** After the group loop over distinct keys, every group's first matching
      row carries the group's statistics, and it is the row found before
      the run when there was one; rows of other keys are found where they
      were. */
  lemma {:induction false} ImportedGroups(catalog: seq<ComponentValue>, lines: seq<SaleLine>, ks: seq<GroupKey>,
                                          mean: seq<SaleLine> -> real, latest: seq<SaleLine> -> real)
    requires DistinctKeys(ks)
    ensures var r := Imported(catalog, lines, ks, mean, latest);
      && (forall k :: k in ks ==>
            && FirstMatch(r, k, 0).Some?
            && Carries(r[FirstMatch(r, k, 0).value], k, StatsOf(lines, k, mean, latest))
            && (FirstMatch(catalog, k, 0).Some? ==> FirstMatch(r, k, 0) == FirstMatch(catalog, k, 0)))
      && (forall k :: k !in ks ==> FirstMatch(r, k, 0) == FirstMatch(catalog, k, 0))
  {
    if ks != [] {
      var front, k := ks[..|ks| - 1], ks[|ks| - 1];
      assert ks == front + [k];
      assert k !in front;
      ImportedGroups(catalog, lines, front, mean, latest);
      var cur := Imported(catalog, lines, front, mean, latest);
      var s := StatsOf(lines, k, mean, latest);
      var r := Stored(cur, k, s);
      assert r == Imported(catalog, lines, ks, mean, latest);
      StoredFacts(cur, k, s);
      forall k2 | k2 in front
        ensures FirstMatch(r, k2, 0) == FirstMatch(cur, k2, 0)
        ensures r[FirstMatch(r, k2, 0).value] == cur[FirstMatch(cur, k2, 0).value]
      {
        var j := FirstMatch(cur, k2, 0).value;
        if FirstMatch(cur, k, 0) == Some(j) {
          assert false;
        }
      }
    }
  }

  /** After the group loop over distinct keys, the rows that existed keep
      their identifying columns, and only a row that was the first match
      of some group changes; the catalog grows by one row per group it had
      no row for. */
  lemma {:induction false} ImportedRows(catalog: seq<ComponentValue>, lines: seq<SaleLine>, ks: seq<GroupKey>,
                                        mean: seq<SaleLine> -> real, latest: seq<SaleLine> -> real)
    requires DistinctKeys(ks)
    ensures var r := Imported(catalog, lines, ks, mean, latest);
      && |r| == |catalog| + Unmatched(catalog, ks)
      && (forall i :: 0 <= i < |catalog| ==> SameKey(r[i], catalog[i]))
      && (forall i :: 0 <= i < |catalog| && (forall k :: k in ks ==> FirstMatch(catalog, k, 0) != Some(i)) ==> r[i] == catalog[i])
  {
    if ks != [] {
      var front, k := ks[..|ks| - 1], ks[|ks| - 1];
      assert ks == front + [k];
      assert k !in front;
      ImportedRows(catalog, lines, front, mean, latest);
      ImportedGroups(catalog, lines, front, mean, latest);
      var cur := Imported(catalog, lines, front, mean, latest);
      var s := StatsOf(lines, k, mean, latest);
      var r := Stored(cur, k, s);
      assert r == Imported(catalog, lines, ks, mean, latest);
      StoredFacts(cur, k, s);
      assert FirstMatch(cur, k, 0) == FirstMatch(catalog, k, 0);
      forall i | 0 <= i < |catalog| && (forall k' :: k' in ks ==> FirstMatch(catalog, k', 0) != Some(i))
        ensures r[i] == catalog[i]
      {
        assert forall k' :: k' in front ==> FirstMatch(catalog, k', 0) != Some(i);
        assert cur[i] == catalog[i];
        assert FirstMatch(cur, k, 0) != Some(i);
      }
    }
  }

  /** Every row of `r` past the end of `catalog` is the new row of a group
      among `ks` that `catalog` had no row for. */
  predicate AppendedFromGroups(catalog: seq<ComponentValue>, r: seq<ComponentValue>, lines: seq<SaleLine>,
                               ks: seq<GroupKey>, mean: seq<SaleLine> -> real, latest: seq<SaleLine> -> real)
  {
    forall i :: |catalog| <= i < |r| ==> NewRowOfGroup(catalog, r[i], lines, ks, mean, latest)
  }

  /** `row` is the new row of a group among `ks` that `catalog` had no row
      for. */
  predicate NewRowOfGroup(catalog: seq<ComponentValue>, row: ComponentValue, lines: seq<SaleLine>,
                          ks: seq<GroupKey>, mean: seq<SaleLine> -> real, latest: seq<SaleLine> -> real)
  {
    exists k :: k in ks && FirstMatch(catalog, k, 0).None? && row == NewRow(k, StatsOf(lines, k, mean, latest))
  }

  /** After the group loop over distinct keys, every appended row is the
      new row, without a model code, of a group the catalog had no row
      for. */
  lemma {:induction false} ImportedNewRows(catalog: seq<ComponentValue>, lines: seq<SaleLine>, ks: seq<GroupKey>,
                                           mean: seq<SaleLine> -> real, latest: seq<SaleLine> -> real)
    requires DistinctKeys(ks)
    ensures var r := Imported(catalog, lines, ks, mean, latest);
      |catalog| <= |r| && AppendedFromGroups(catalog, r, lines, ks, mean, latest)
  {
    if ks != [] {
      var front, k := ks[..|ks| - 1], ks[|ks| - 1];
      assert ks == front + [k];
      assert k !in front;
      ImportedNewRows(catalog, lines, front, mean, latest);
      var cur := Imported(catalog, lines, front, mean, latest);
      var s := StatsOf(lines, k, mean, latest);
      var r := Imported(catalog, lines, ks, mean, latest);
      assert r == Stored(cur, k, s);
      StoredRows(cur, k, s);
      assert FirstMatch(cur, k, 0) == FirstMatch(catalog, k, 0) by {
        ImportedGroups(catalog, lines, front, mean, latest);
      }
      AppendedStep(catalog, cur, r, lines, front, k, mean, latest);
    }
  }

  /** One group's write keeps the appended rows accounted for. */
  lemma AppendedStep(catalog: seq<ComponentValue>, cur: seq<ComponentValue>, r: seq<ComponentValue>,
                     lines: seq<SaleLine>, front: seq<GroupKey>, k: GroupKey,
                     mean: seq<SaleLine> -> real, latest: seq<SaleLine> -> real)
    requires |catalog| <= |cur| && AppendedFromGroups(catalog, cur, lines, front, mean, latest)
    requires FirstMatch(cur, k, 0) == FirstMatch(catalog, k, 0)
    requires r == Stored(cur, k, StatsOf(lines, k, mean, latest))
    ensures AppendedFromGroups(catalog, r, lines, front + [k], mean, latest)
  {
    var s := StatsOf(lines, k, mean, latest);
    StoredRows(cur, k, s);
    var ks := front + [k];
    forall i | |catalog| <= i < |r|
      ensures NewRowOfGroup(catalog, r[i], lines, ks, mean, latest)
    {
      if i < |cur| {
        assert r[i] == cur[i];
        assert NewRowOfGroup(catalog, cur[i], lines, front, mean, latest);
        var k' :| k' in front && FirstMatch(catalog, k', 0).None? && cur[i] == NewRow(k', StatsOf(lines, k', mean, latest));
        assert k' in ks;
      } else {
        assert k in ks && r[i] == NewRow(k, s);
      }
    }
  }

  // ---------------------------------------------------------------------
  // The session's view of the catalog, and the import run
  // ---------------------------------------------------------------------

  /** The `ComponentValue` table as the import session sees and changes it. */
  class PriceCatalog {
    var rows: seq<ComponentValue>

    constructor (rows0: seq<ComponentValue>)
      ensures rows == rows0
    {
      rows := rows0;
    }

    /** One group's write: the first matching row is updated in place, or a
        new row is added. */
    method Store(k: GroupKey, s: Stats)
      modifies this
      ensures rows == Stored(old(rows), k, s)
    {
      match FirstMatch(rows, k, 0)
      case Some(i) =>
        rows := rows[i := Updated(rows[i], s)];
      case None =>
        rows := rows + [NewRow(k, s)];
    }
  }

  /** `run_import`: on a missing column the `KeyError` is reported and
      nothing is committed; otherwise each group, in order, is written and
      the whole is committed. When the writes or the commit raise
      (`committed` false), the error is caught and the closed session
      discards every change, so the catalog is as before. */
  method RunImport(catalog: PriceCatalog, headers: seq<string>, lines: seq<SaleLine>,
                   mean: seq<SaleLine> -> real, latest: seq<SaleLine> -> real, committed: bool)
    returns (error: Option<string>)
    modifies catalog
    ensures error == MissingColumn(headers, lines)
    ensures catalog.rows ==
      if error.None? && committed then RunImportSpec(old(catalog.rows), headers, lines, mean, latest)
      else old(catalog.rows)
  {
    error := MissingColumn(headers, lines);
    if error.Some? {
      return;
    }
    var pre := catalog.rows;
    WriteGroups(catalog, lines, Keys(lines), mean, latest);
    if !committed {
      catalog.rows := pre;
    }
  }

  /** The group loop: each group of `keys`, in order, is written. */
  method WriteGroups(catalog: PriceCatalog, lines: seq<SaleLine>, keys: seq<GroupKey>,
                     mean: seq<SaleLine> -> real, latest: seq<SaleLine> -> real)
    modifies catalog
    ensures catalog.rows == Imported(old(catalog.rows), lines, keys, mean, latest)
  {
    for n := 0 to |keys|
      invariant catalog.rows == Imported(old(catalog.rows), lines, keys[..n], mean, latest)
    {
      var group := Members(lines, keys[n]);
      catalog.Store(keys[n], Stats(latest(group), mean(group), |group|));
      assert keys[..n + 1][..n] == keys[..n];
    }
    assert keys[..|keys|] == keys;
  }

  /** A successful run gives every group of the workbook a row carrying its
      statistics, and the sample sizes written add up to the number of
      lines with an item and an engine model. */
  lemma RunImportGroups(catalog: seq<ComponentValue>, headers: seq<string>, lines: seq<SaleLine>,
                        mean: seq<SaleLine> -> real, latest: seq<SaleLine> -> real)
    requires MissingColumn(headers, lines).None?
    ensures var r := RunImportSpec(catalog, headers, lines, mean, latest);
      forall l :: l in lines && Grouped(l) ==>
        FirstMatch(r, KeyOf(l), 0).Some?
        && Carries(r[FirstMatch(r, KeyOf(l), 0).value], KeyOf(l), StatsOf(lines, KeyOf(l), mean, latest))
    ensures SizeSum(lines, Keys(lines)) == KeptCount(lines)
  {
    ImportedGroups(catalog, lines, Keys(lines), mean, latest);
    GroupsPartitionLines(lines);
    forall l | l in lines && Grouped(l)
      ensures KeyOf(l) in Keys(lines)
    {
      var i :| 0 <= i < |lines| && lines[i] == l;
      assert InGroup(lines[i], KeyOf(l));
    }
  }
}

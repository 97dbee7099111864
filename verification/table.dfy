/**
 * The merge steps' view of a data directory and of the merged dataset: a directory listing in
 * `glob` order (name, modification time, and the series `read_csv` gives, if any), the choice of
 * the newest file (first seen wins a tie), and the wide table `pd.concat(dfs, axis=1)` followed
 * by `sort_index()` builds from one-column series.
 */
module Table {
  import opened Wrappers
  import opened Seqs
  import opened Calendar
  import opened Series
  import opened Naming

  /** A CSV file: its mtime, and its series, or `None` when reading it (or renaming its one column) fails. */
  datatype CsvFile = CsvFile(mtime: int, frame: Option<Series>)

  datatype Entry = Entry(name: string, file: CsvFile)

  /** A directory listing, in the order `glob` returns it. */
  type Listing = seq<Entry>

  /** The entries `glob("*.csv")` lists. */
  function CsvOnly(): Entry -> bool
  {
    (e: Entry) => MatchesCsvGlob(e.name)
  }

  /** `[e for e in es if keep(e)]`. */
  function FilterEntries(es: Listing, keep: Entry -> bool): (r: Listing)
    ensures |r| <= |es|
    ensures forall e :: e in r <==> e in es && keep(e)
  {
    if es == [] then []
    else
      assert forall e :: e in es <==> e == es[0] || e in es[1..];
      (if keep(es[0]) then [es[0]] else []) + FilterEntries(es[1..], keep)
  }

  /** A filter that keeps every entry returns the listing unchanged. */
  lemma {:induction false} FilterEntriesAll(es: Listing, keep: Entry -> bool)
    requires forall e :: e in es ==> keep(e)
    ensures FilterEntries(es, keep) == es
  {
    if es != [] {
      assert forall e :: e in es[1..] ==> e in es;
      FilterEntriesAll(es[1..], keep);
      assert es == [es[0]] + es[1..];
    }
  }

  /** Filtering a listing grown by one entry filters that entry after the others. */
  lemma {:induction false} FilterEntriesSnoc(es: Listing, e: Entry, keep: Entry -> bool)
    ensures FilterEntries(es + [e], keep) == FilterEntries(es, keep) + (if keep(e) then [e] else [])
  {
    if es == [] {
      assert es + [e] == [e];
    } else {
      var head := if keep(es[0]) then [es[0]] else [];
      var last := if keep(e) then [e] else [];
      ConsSnoc(es, e);
      assert FilterEntries(es + [e], keep) == head + FilterEntries(es[1..] + [e], keep);
      FilterEntriesSnoc(es[1..], e, keep);
      AppendAssoc(head, FilterEntries(es[1..], keep), last);
    }
  }

  /** Filtering twice is filtering once by both conditions: deletions can be done one keyword at a time. */
  lemma {:induction false} FilterEntriesTwice(es: Listing, p: Entry -> bool, q: Entry -> bool, both: Entry -> bool)
    requires forall e :: both(e) == (p(e) && q(e))
    ensures FilterEntries(FilterEntries(es, p), q) == FilterEntries(es, both)
  {
    if es != [] {
      FilterEntriesTwice(es[1..], p, q, both);
      var t := FilterEntries(es[1..], p);
      if p(es[0]) {
        assert FilterEntries(es, p) == [es[0]] + t;
        assert ([es[0]] + t)[1..] == t;
      } else {
        assert FilterEntries(es, p) == t;
      }
    }
  }

  // ---------------------------------------------------------------------------------------
  // The newest file

  /**
   * `files[i]` is the first, among the first `upto` entries whose names `sel` accepts, of those
   * with the largest mtime.
   */
  predicate FirstNewestAt(files: Listing, upto: nat, sel: string -> bool, i: int)
    requires upto <= |files|
  {
    && 0 <= i < upto && sel(files[i].name)
    && (forall j :: 0 <= j < upto && sel(files[j].name) ==> files[j].file.mtime <= files[i].file.mtime)
    && (forall j :: 0 <= j < i && sel(files[j].name) ==> files[j].file.mtime < files[i].file.mtime)
  }

  /**
   * The entry a scan over the first `upto` entries keeps when a later file replaces the kept one
   * only on a strictly greater mtime (`mtime > latest[k][0]`; `max` behaves the same).
   */
  function NewestIndex(files: Listing, upto: nat, sel: string -> bool): (r: Option<nat>)
    requires upto <= |files|
    ensures r.Some? ==> r.value < upto
  {
    if upto == 0 then None
    else
      var prev := NewestIndex(files, upto - 1, sel);
      var f := files[upto - 1];
      if sel(f.name) && (prev.None? || f.file.mtime > files[prev.value].file.mtime) then Some(upto - 1) else prev
  }

  /**
   * The scan finds nothing exactly when no entry is accepted; otherwise it keeps the first of the
   * newest accepted entries.
   */
  lemma {:induction false} NewestIndexSpec(files: Listing, upto: nat, sel: string -> bool)
    requires upto <= |files|
    ensures NewestIndex(files, upto, sel).None? <==> forall j :: 0 <= j < upto ==> !sel(files[j].name)
    ensures NewestIndex(files, upto, sel).Some? ==> FirstNewestAt(files, upto, sel, NewestIndex(files, upto, sel).value)
  {
    if upto > 0 {
      NewestIndexSpec(files, upto - 1, sel);
    }
  }

  /** At most one entry is the first of the newest: the choice does not depend on how it is made. */
  lemma FirstNewestUnique(files: Listing, upto: nat, sel: string -> bool, i: int, k: int)
    requires upto <= |files|
    requires FirstNewestAt(files, upto, sel, i) && FirstNewestAt(files, upto, sel, k)
    ensures i == k
  {
  }

  /** The series of the chosen entry, if an entry was chosen and it could be read. */
  function FrameAt(files: Listing, i: Option<nat>): Option<Series>
  {
    if i.Some? && i.value < |files| then files[i.value].file.frame else None
  }

  /** The names whose key is `k`. */
  function KeyIs(key: string -> string, k: string): string -> bool
  {
    n => key(n) == k
  }

  /** The index of the first entry whose key is `k`, or `|files|` when there is none. */
  function FirstSeen(files: Listing, key: string -> string, k: string): (r: nat)
    ensures r <= |files|
    ensures forall j :: 0 <= j < r ==> key(files[j].name) != k
    ensures r < |files| ==> key(files[r].name) == k
  {
    if files == [] then 0
    else if key(files[0].name) == k then 0
    else 1 + FirstSeen(files[1..], key, k)
  }

  /**
   * The loop of `latest_file_per_keyword` (merge_files.py, lines 10-25; the same loop is in
   * sync_master_and_cleanup.py, lines 52-64): for every key some file name gives, the index of
   * the first of its newest files. `keys` are the keys in the order they were first seen, the
   * order the returned dictionary iterates in.
   */
  method LatestPerKey(files: Listing, key: string -> string) returns (latest: map<string, nat>, keys: seq<string>)
    ensures forall k :: k in latest <==> exists j :: 0 <= j < |files| && key(files[j].name) == k
    ensures forall k :: k in latest ==> Some(latest[k]) == NewestIndex(files, |files|, KeyIs(key, k))
    ensures forall k :: k in keys <==> k in latest
    ensures forall a, b :: 0 <= a < b < |keys| ==> FirstSeen(files, key, keys[a]) < FirstSeen(files, key, keys[b])
  {
    latest := map[];
    keys := [];
    for i := 0 to |files|
      invariant Scanned(files, key, i, latest, keys)
    {
      var f := files[i];
      var k := key(f.name);
      ghost var before, keysBefore := latest, keys;
      if k !in latest {
        latest := latest[k := i];
        keys := keys + [k];
      } else if f.file.mtime > files[latest[k]].file.mtime {
        latest := latest[k := i];
      }
      LatestStep(files, key, i, before, keysBefore, latest, keys);
    }
    forall k ensures k in latest <==> exists j :: 0 <= j < |files| && key(files[j].name) == k {
      FirstSeenFound(files, key, k);
    }
  }

  /**
   * What the loop of `LatestPerKey` knows after the first `i` entries: the keys seen so far, each
   * with the scan's choice among its files so far, listed in the order they were first seen.
   */
  ghost predicate Scanned(files: Listing, key: string -> string, i: nat, latest: map<string, nat>, keys: seq<string>)
    requires i <= |files|
  {
    && (forall k :: k in latest <==> FirstSeen(files, key, k) < i)
    && (forall k :: k in latest ==> latest[k] < i && Some(latest[k]) == NewestIndex(files, i, KeyIs(key, k)))
    && (forall k :: k in keys <==> k in latest)
    && (forall a, b :: 0 <= a < b < |keys| ==> FirstSeen(files, key, keys[a]) < FirstSeen(files, key, keys[b]))
  }

  lemma FirstSeenFound(files: Listing, key: string -> string, k: string)
    ensures FirstSeen(files, key, k) < |files| <==> exists j :: 0 <= j < |files| && key(files[j].name) == k
  {
    var r := FirstSeen(files, key, k);
    if r < |files| {
      assert key(files[r].name) == k;
    }
  }

  /** The update the loop of `LatestPerKey` makes for entry `i`. */
  ghost predicate Stepped(files: Listing, key: string -> string, i: nat, before: map<string, nat>, keysBefore: seq<string>,
                          after: map<string, nat>, keysAfter: seq<string>)
    requires i < |files|
  {
    var k := key(files[i].name);
    && (k in before ==> before[k] < |files|)
    && after == (if k !in before || files[i].file.mtime > files[before[k]].file.mtime then before[k := i] else before)
    && keysAfter == (if k !in before then keysBefore + [k] else keysBefore)
  }

  /** One step of the loop of `LatestPerKey` keeps what it knows. */
  lemma LatestStep(files: Listing, key: string -> string, i: nat, before: map<string, nat>, keysBefore: seq<string>,
                   after: map<string, nat>, keysAfter: seq<string>)
    requires i < |files|
    requires Scanned(files, key, i, before, keysBefore)
    requires Stepped(files, key, i, before, keysBefore, after, keysAfter)
    ensures Scanned(files, key, i + 1, after, keysAfter)
  {
    StepSeen(files, key, i, before, keysBefore, after, keysAfter);
    StepChoice(files, key, i, before, keysBefore, after, keysAfter);
    StepOrder(files, key, i, before, keysBefore, after, keysAfter);
  }

  /** A key not seen before entry `i` but given by it is first seen at `i`. */
  lemma StepFirstSeen(files: Listing, key: string -> string, i: nat, before: map<string, nat>, keysBefore: seq<string>)
    requires i < |files|
    requires Scanned(files, key, i, before, keysBefore)
    requires key(files[i].name) !in before
    ensures FirstSeen(files, key, key(files[i].name)) == i
  {
    var k := key(files[i].name);
    forall j | 0 <= j < i ensures key(files[j].name) != k {
    }
  }

  /** After a step the keys seen are those first seen up to entry `i`, and the key list names them. */
  lemma StepSeen(files: Listing, key: string -> string, i: nat, before: map<string, nat>, keysBefore: seq<string>,
                 after: map<string, nat>, keysAfter: seq<string>)
    requires i < |files|
    requires Scanned(files, key, i, before, keysBefore)
    requires Stepped(files, key, i, before, keysBefore, after, keysAfter)
    ensures forall k' :: k' in after <==> FirstSeen(files, key, k') < i + 1
    ensures forall k' :: k' in keysAfter <==> k' in after
  {
    var k := key(files[i].name);
    if k !in before {
      StepFirstSeen(files, key, i, before, keysBefore);
    }
    forall k' ensures k' in after <==> FirstSeen(files, key, k') < i + 1 {
      var r := FirstSeen(files, key, k');
      assert r == i ==> k' == k;
      assert k' in after <==> k' in before || k' == k;
    }
    assert forall k' :: k' in keysAfter <==> k' in keysBefore || (k !in before && k' == k);
  }

  /** After a step every key seen keeps the scan's choice among its files up to entry `i`. */
  lemma StepChoice(files: Listing, key: string -> string, i: nat, before: map<string, nat>, keysBefore: seq<string>,
                   after: map<string, nat>, keysAfter: seq<string>)
    requires i < |files|
    requires Scanned(files, key, i, before, keysBefore)
    requires Stepped(files, key, i, before, keysBefore, after, keysAfter)
    ensures forall k' :: k' in after ==> after[k'] < i + 1 && Some(after[k']) == NewestIndex(files, i + 1, KeyIs(key, k'))
  {
    var k := key(files[i].name);
    forall k' | k' in after ensures after[k'] < i + 1 && Some(after[k']) == NewestIndex(files, i + 1, KeyIs(key, k')) {
      if k' == k && k !in before {
        StepFirstSeen(files, key, i, before, keysBefore);
        NewestIndexSpec(files, i, KeyIs(key, k));
      }
    }
  }

  /** After a step the key list is still in the order the keys were first seen. */
  lemma StepOrder(files: Listing, key: string -> string, i: nat, before: map<string, nat>, keysBefore: seq<string>,
                  after: map<string, nat>, keysAfter: seq<string>)
    requires i < |files|
    requires Scanned(files, key, i, before, keysBefore)
    requires Stepped(files, key, i, before, keysBefore, after, keysAfter)
    ensures forall a, b :: 0 <= a < b < |keysAfter| ==> FirstSeen(files, key, keysAfter[a]) < FirstSeen(files, key, keysAfter[b])
  {
    var k := key(files[i].name);
    if k !in before {
      StepFirstSeen(files, key, i, before, keysBefore);
      forall a, b | 0 <= a < b < |keysAfter| ensures FirstSeen(files, key, keysAfter[a]) < FirstSeen(files, key, keysAfter[b]) {
        if b == |keysBefore| {
          assert keysAfter[a] == keysBefore[a];
          assert keysBefore[a] in before;
        }
      }
    }
  }

  /**
   * `max(files, key=getmtime)` over the entries `sel` accepts (merge_weekly.py, lines 42-49):
   * nothing when none is accepted, otherwise the first of the newest.
   */
  method Newest(files: Listing, sel: string -> bool) returns (best: Option<nat>)
    ensures best == NewestIndex(files, |files|, sel)
  {
    best := None;
    for i := 0 to |files|
      invariant best == NewestIndex(files, i, sel)
    {
      if sel(files[i].name) && (best.None? || files[i].file.mtime > files[best.value].file.mtime) {
        best := Some(i);
      }
    }
  }

  // ---------------------------------------------------------------------------------------
  // The merged table

  /** A one-column frame after `df.columns = [name]`. */
  datatype Column = Column(name: string, rows: Series)

  datatype TableRow = TableRow(day: Day, vals: seq<Option<real>>)

  /** A wide table: one column per frame, one row per timestamp. */
  datatype Table = Table(names: seq<string>, rows: seq<TableRow>)

  /**
   * The frames `ColumnsOf` collects: for every keyword in `keys`, in order, the frame `pick`
   * finds under its safe name `safe(k)`, named after it; keywords with no frame are skipped.
   */
  function ColumnsOf(keys: seq<string>, safe: string -> string, pick: string -> Option<Series>): (cols: seq<Column>)
    ensures |cols| <= |keys|
  {
    if keys == [] then []
    else
      var s := safe(keys[0]);
      (if pick(s).Some? then [Column(s, pick(s).value)] else []) + ColumnsOf(keys[1..], safe, pick)
  }

  /**
   * Every collected column is the frame of one of the keywords, under its safe name, and no
   * frame is collected exactly when no keyword has one.
   */
  lemma {:induction false} ColumnsOfSpec(keys: seq<string>, safe: string -> string, pick: string -> Option<Series>)
    ensures var cols := ColumnsOf(keys, safe, pick);
      && (cols == [] <==> forall k :: k in keys ==> pick(safe(k)).None?)
      && (forall c :: c in cols ==> exists k :: k in keys && c.name == safe(k) && pick(c.name) == Some(c.rows))
  {
    if keys != [] {
      ColumnsOfSpec(keys[1..], safe, pick);
      assert forall k :: k in keys <==> k == keys[0] || k in keys[1..];
    }
  }

  /** Strictly increasing: sorted, each timestamp once. */
  predicate Ascending(ds: seq<Day>)
  {
    forall i, j :: 0 <= i < j < |ds| ==> ds[i] < ds[j]
  }

  /** Adds a timestamp to an ascending list, unless it is there already. */
  function InsertDay(ds: seq<Day>, d: Day): (r: seq<Day>)
    requires Ascending(ds)
    ensures Ascending(r)
    ensures forall x :: x in r <==> x in ds || x == d
  {
    if ds == [] then [d]
    else if d < ds[0] then [d] + ds
    else if d == ds[0] then ds
    else
      AscendingTail(ds);
      var rest := InsertDay(ds[1..], d);
      ConsAscending(ds[0], rest);
      HeadTail(ds);
      [ds[0]] + rest
  }

  /** The tail of an ascending list is ascending and above its head. */
  lemma AscendingTail(ds: seq<Day>)
    requires ds != [] && Ascending(ds)
    ensures Ascending(ds[1..])
    ensures forall x :: x in ds[1..] ==> ds[0] < x
  {
    forall x | x in ds[1..] ensures ds[0] < x {
      var k :| 0 <= k < |ds[1..]| && ds[1..][k] == x;
      assert ds[k + 1] == x;
    }
  }

  /** A timestamp below every one of an ascending list can go in front of it. */
  lemma ConsAscending(d: Day, rest: seq<Day>)
    requires Ascending(rest)
    requires forall x :: x in rest ==> d < x
    ensures Ascending([d] + rest)
  {
    var r := [d] + rest;
    forall i, j | 0 <= i < j < |r| ensures r[i] < r[j] {
      assert r[j] == rest[j - 1];
      if i == 0 {
        assert rest[j - 1] in rest;
      } else {
        assert r[i] == rest[i - 1];
      }
    }
  }

  /** `sort_index()` of the concatenated index: each timestamp once, ascending. */
  function SortDays(ds: seq<Day>): (r: seq<Day>)
    ensures Ascending(r)
    ensures forall x :: x in r <==> x in ds
  {
    if ds == [] then []
    else
      assert forall x :: x in ds <==> x in ds[..|ds| - 1] || x == ds[|ds| - 1];
      InsertDay(SortDays(ds[..|ds| - 1]), ds[|ds| - 1])
  }

  /** The timestamps of a series, in its order. */
  function DaySeq(s: Series): (r: seq<Day>)
    ensures forall d :: d in r <==> d in Days(s)
  {
    if s == [] then []
    else
      DaysCons(s);
      [s[0].day] + DaySeq(s[1..])
  }

  /** The timestamps of every frame, frame after frame. */
  function AllDays(cols: seq<Column>): (r: seq<Day>)
    ensures forall d :: d in r <==> exists j :: 0 <= j < |cols| && d in Days(cols[j].rows)
  {
    if cols == [] then []
    else
      var last := cols[|cols| - 1];
      AllDays(cols[..|cols| - 1]) + DaySeq(last.rows)
  }

  /**
   * `pd.concat(dfs, axis=1)` followed by `sort_index()`: the union of the frames' timestamps in
   * ascending order, each row holding every frame's value there (NaN where a frame has none).
   */
  function OuterJoin(cols: seq<Column>): Table
  {
    var days := SortDays(AllDays(cols));
    Table(
      seq(|cols|, j requires 0 <= j < |cols| => cols[j].name),
      seq(|days|, i requires 0 <= i < |days| =>
        TableRow(days[i], seq(|cols|, j requires 0 <= j < |cols| => Lookup(cols[j].rows, days[i])))))
  }

  /**
   * The joined table has one column per frame, with its name; its rows are sorted by timestamp,
   * each timestamp once, and every row timestamp is one of the frames'.
   */
  lemma OuterJoinShape(cols: seq<Column>)
    ensures var t := OuterJoin(cols);
      && |t.names| == |cols| && (forall j :: 0 <= j < |cols| ==> t.names[j] == cols[j].name)
      && (forall i, k :: 0 <= i < k < |t.rows| ==> t.rows[i].day < t.rows[k].day)
      && (forall i :: 0 <= i < |t.rows| ==> t.rows[i].day in AllDays(cols) && |t.rows[i].vals| == |cols|)
  {
    var t := OuterJoin(cols);
    var days := SortDays(AllDays(cols));
    OuterJoinCells(cols);
    forall i | 0 <= i < |t.rows| ensures t.rows[i].day in AllDays(cols) {
      assert days[i] in days;
    }
  }

  /** A value is present in the joined table only where its frame has it. */
  lemma OuterJoinPresent(cols: seq<Column>)
    ensures var t := OuterJoin(cols);
      forall i, j :: 0 <= i < |t.rows| && 0 <= j < |cols| && j < |t.rows[i].vals| && t.rows[i].vals[j].Some? ==>
        Row(t.rows[i].day, t.rows[i].vals[j]) in cols[j].rows
  {
    var t := OuterJoin(cols);
    var days := SortDays(AllDays(cols));
    OuterJoinCells(cols);
    forall i, j | 0 <= i < |t.rows| && 0 <= j < |cols| && j < |t.rows[i].vals| && t.rows[i].vals[j].Some?
      ensures Row(t.rows[i].day, t.rows[i].vals[j]) in cols[j].rows
    {
      assert t.rows[i].vals[j] == Lookup(cols[j].rows, days[i]);
    }
  }

  /** Every value of a frame without repeated timestamps is in its column, at the row of its timestamp. */
  lemma OuterJoinComplete(cols: seq<Column>)
    ensures var t := OuterJoin(cols);
      forall j, x :: 0 <= j < |cols| && x in cols[j].rows && UniqueDays(cols[j].rows) ==>
        exists i :: 0 <= i < |t.rows| && t.rows[i].day == x.day && j < |t.rows[i].vals| && t.rows[i].vals[j] == x.val
  {
    var t := OuterJoin(cols);
    var days := SortDays(AllDays(cols));
    OuterJoinCells(cols);
    forall j, x | 0 <= j < |cols| && x in cols[j].rows && UniqueDays(cols[j].rows)
      ensures exists i :: 0 <= i < |t.rows| && t.rows[i].day == x.day && j < |t.rows[i].vals| && t.rows[i].vals[j] == x.val
    {
      var k :| 0 <= k < |cols[j].rows| && cols[j].rows[k] == x;
      assert x.day in Days(cols[j].rows);
      assert x.day in days;
      var i :| 0 <= i < |days| && days[i] == x.day;
      assert t.rows[i].vals[j] == Lookup(cols[j].rows, x.day) == x.val;
    }
    assert forall j, x :: 0 <= j < |cols| && x in cols[j].rows && UniqueDays(cols[j].rows) ==>
        exists i :: 0 <= i < |t.rows| && t.rows[i].day == x.day && j < |t.rows[i].vals| && t.rows[i].vals[j] == x.val;
  }

  /** The cells of the joined table: row `i` is the `i`-th sorted timestamp, cell `j` the lookup in frame `j`. */
  lemma OuterJoinCells(cols: seq<Column>)
    ensures var t := OuterJoin(cols); var days := SortDays(AllDays(cols));
      && |t.names| == |cols| && (forall j :: 0 <= j < |cols| ==> t.names[j] == cols[j].name)
      && |t.rows| == |days|
      && forall i :: 0 <= i < |days| ==>
           t.rows[i].day == days[i] && |t.rows[i].vals| == |cols|
           && forall j :: 0 <= j < |cols| ==> t.rows[i].vals[j] == Lookup(cols[j].rows, days[i])
  {
  }

  /** The merged dataset a rebuild leaves: none when there is no frame, else the joined table. */
  function Joined(cols: seq<Column>): (t: Option<Table>)
    ensures t.None? <==> cols == []
    ensures t.Some? ==> t.value == OuterJoin(cols)
  {
    if cols == [] then None else Some(OuterJoin(cols))
  }

  /** `ColumnsOf` over a list grown by one keyword collects that keyword's frame after the others. */
  /** Two ways of picking frames that agree on every key collect the same columns. */
  lemma {:induction false} ColumnsOfSamePick(keys: seq<string>, safe: string -> string,
                                             p: string -> Option<Series>, q: string -> Option<Series>)
    requires forall i :: 0 <= i < |keys| ==> p(safe(keys[i])) == q(safe(keys[i]))
    ensures ColumnsOf(keys, safe, p) == ColumnsOf(keys, safe, q)
  {
    if keys != [] {
      assert p(safe(keys[0])) == q(safe(keys[0]));
      forall i | 0 <= i < |keys[1..]| ensures p(safe(keys[1..][i])) == q(safe(keys[1..][i])) {
        assert keys[1..][i] == keys[i + 1];
      }
      ColumnsOfSamePick(keys[1..], safe, p, q);
    }
  }

  /** One pass of a collecting loop: the columns of the first `i + 1` keys. */
  lemma ColumnsOfStep(keys: seq<string>, i: nat, safe: string -> string, pick: string -> Option<Series>,
                      dfs: seq<Column>, next: seq<Column>)
    requires i < |keys| && dfs == ColumnsOf(keys[..i], safe, pick)
    requires next == dfs + (if pick(safe(keys[i])).Some? then [Column(safe(keys[i]), pick(safe(keys[i])).value)] else [])
    ensures next == ColumnsOf(keys[..i + 1], safe, pick)
  {
    ColumnsOfSnoc(keys[..i], keys[i], safe, pick);
    assert keys[..i + 1] == keys[..i] + [keys[i]];
  }

  lemma {:induction false} ColumnsOfSnoc(keys: seq<string>, k: string, safe: string -> string, pick: string -> Option<Series>)
    ensures ColumnsOf(keys + [k], safe, pick) ==
      ColumnsOf(keys, safe, pick) + (if pick(safe(k)).Some? then [Column(safe(k), pick(safe(k)).value)] else [])
  {
    if keys == [] {
      assert keys + [k] == [k];
    } else {
      assert (keys + [k])[0] == keys[0];
      assert (keys + [k])[1..] == keys[1..] + [k];
      ColumnsOfSnoc(keys[1..], k, safe, pick);
    }
  }
}

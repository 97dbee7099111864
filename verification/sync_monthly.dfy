/**
 * The monthly sync (script/sync_master_and_cleanup.py): reconciles the status files with the
 * master list, deletes the raw CSV files of processed keywords that left the master, and rebuilds
 * the merged dataset from the newest raw file of every processed keyword.
 */
module SyncMonthly {
  import opened Wrappers
  import opened Seqs
  import opened Lines
  import opened StringOrder
  import opened Naming
  import opened Series
  import opened Table
  import opened Queue
  import opened Reconcile

  /** The raw files the keyword glob `{safe}_*.csv` does not catch. */
  function Survives(safe: string): Entry -> bool
  {
    (e: Entry) => !MatchesKeywordGlob(e.name, safe)
  }

  /** The raw files no keyword in `gone` claims through its glob. */
  function Unclaimed(gone: set<string>): Entry -> bool
  {
    (e: Entry) => forall k :: k in gone ==> !MatchesKeywordGlob(e.name, SafeKw(k))
  }

  /** What deleting the files of the glob of `safe` leaves and reports after the files `done`. */
  ghost predicate Swept(done: Listing, safe: string, rest: Listing, deleted: seq<string>)
  {
    && rest == FilterEntries(done, Survives(safe))
    && |deleted| + |rest| == |done|
    && (forall n :: n in deleted ==> MatchesKeywordGlob(n, safe))
    && (forall e :: e in done && MatchesKeywordGlob(e.name, safe) ==> e.name in deleted)
  }

  /** One pass of the deletion loop (lines 40-44) for the file `e`. */
  method SweepOne(ghost done: Listing, e: Entry, safe: string, rest: Listing, deleted: seq<string>)
    returns (rest': Listing, deleted': seq<string>)
    requires Swept(done, safe, rest, deleted)
    ensures Swept(done + [e], safe, rest', deleted')
  {
    FilterEntriesSnoc(done, e, Survives(safe));
    if MatchesKeywordGlob(e.name, safe) {
      rest', deleted' := rest, deleted + [e.name];
    } else {
      rest', deleted' := rest + [e], deleted;
    }
  }

  /**
   * `delete_raw_files_for_keyword` (lines 34-45), for a keyword without glob wildcards: every
   * raw file the keyword's glob matches is removed and its name reported, in listing order; the
   * other files stay, in order.
   */
  method DeleteRawFiles(raw: Listing, kw: string) returns (rest: Listing, deleted: seq<string>)
    requires GlobLiteral(kw)
    ensures rest == FilterEntries(raw, Survives(SafeKw(kw)))
    ensures |deleted| + |rest| == |raw|
    ensures forall n :: n in deleted ==> MatchesKeywordGlob(n, SafeKw(kw))
    ensures forall e :: e in raw && MatchesKeywordGlob(e.name, SafeKw(kw)) ==> e.name in deleted
  {
    var safe := SafeKw(kw);
    rest := [];
    deleted := [];
    for i := 0 to |raw|
      invariant Swept(raw[..i], safe, rest, deleted)
    {
      rest, deleted := SweepOne(raw[..i], raw[i], safe, rest, deleted);
      TakeSnoc(raw, i);
    }
    assert raw[..|raw|] == raw;
  }

  /** A keyword removed from processed, with the files deleted for it. */
  datatype Removal = Removal(kw: string, deleted: seq<string>)

  /** Dropping one more keyword's files from the files no keyword of `gone` claims. */
  lemma UnclaimedStep(raw: Listing, gone: set<string>, kw: string)
    ensures FilterEntries(FilterEntries(raw, Unclaimed(gone)), Survives(SafeKw(kw))) == FilterEntries(raw, Unclaimed(gone + {kw}))
  {
    forall e ensures Unclaimed(gone + {kw})(e) == (Unclaimed(gone)(e) && Survives(SafeKw(kw))(e)) {
    }
    FilterEntriesTwice(raw, Unclaimed(gone), Survives(SafeKw(kw)), Unclaimed(gone + {kw}));
  }

  /** Deleting one more evicted keyword's files: the rest is what no keyword evicted so far claims. */
  method Evict(ghost raw: Listing, ghost gone: set<string>, rest: Listing, kw: string) returns (after: Listing, deleted: seq<string>)
    requires rest == FilterEntries(raw, Unclaimed(gone))
    requires GlobLiteral(kw)
    ensures after == FilterEntries(raw, Unclaimed(gone + {kw}))
    ensures forall n :: n in deleted ==> MatchesKeywordGlob(n, SafeKw(kw))
  {
    UnclaimedStep(raw, gone, kw);
    after, deleted := DeleteRawFiles(rest, kw);
  }

  /** What the processed loop has done once the keywords `gone` were evicted. */
  ghost predicate Dropped(processed: set<string>, raw: Listing, gone: set<string>, kept: set<string>, rest: Listing, removed: seq<Removal>)
  {
    && kept == processed - gone
    && rest == FilterEntries(raw, Unclaimed(gone))
    && (forall r :: r in removed ==> r.kw in gone)
    && |removed| == |gone|
  }

  /** One pass of the processed loop (lines 141-150) for the keyword `kw`, not yet visited. */
  method DropOne(kw: string, processed: set<string>, master: set<string>, processing: set<string>, ghost raw: Listing,
                 ghost gone: set<string>, kept: set<string>, rest: Listing, removed: seq<Removal>)
    returns (kept': set<string>, rest': Listing, removed': seq<Removal>, ghost gone': set<string>)
    requires kw in processed && kw !in gone && GlobLiteral(kw)
    requires Dropped(processed, raw, gone, kept, rest, removed)
    ensures gone' == if kw in Evicted(processed, master, processing) then gone + {kw} else gone
    ensures Dropped(processed, raw, gone', kept', rest', removed')
  {
    kept', rest', removed', gone' := kept, rest, removed, gone;
    if kw !in master {
      if kw !in processing {
        var files;
        rest', files := Evict(raw, gone, rest, kw);
        kept' := kept - {kw};
        removed' := removed + [Removal(kw, files)];
        gone' := gone + {kw};
      }
    }
  }

  /**
   * The processed loop of step 2 (lines 140-150), over `sorted(processed)`: a keyword outside the
   * master is skipped while in processing, otherwise its raw files are deleted and it is removed.
   */
  method DropEvicted(order: seq<string>, processed: set<string>, master: set<string>, processing: set<string>, raw: Listing)
    returns (kept: set<string>, rest: Listing, removed: seq<Removal>)
    requires Enumerates(order, processed)
    requires forall k :: k in processed ==> GlobLiteral(k)
    ensures kept == processed - Evicted(processed, master, processing)
    ensures rest == FilterEntries(raw, Unclaimed(Evicted(processed, master, processing)))
    ensures forall r :: r in removed ==> r.kw in Evicted(processed, master, processing)
    ensures |removed| == |Evicted(processed, master, processing)|
  {
    kept := processed;
    rest := raw;
    removed := [];
    ghost var gone: set<string> := {};
    FilterEntriesAll(raw, Unclaimed(gone));
    for n := 0 to |order|
      invariant forall y :: y in gone <==> y in order[..n] && y in Evicted(processed, master, processing)
      invariant Dropped(processed, raw, gone, kept, rest, removed)
    {
      var kw := order[n];
      assert kw !in order[..n];
      ghost var before := gone;
      kept, rest, removed, gone := DropOne(kw, processed, master, processing, raw, gone, kept, rest, removed);
      SeenStep(order, n, before, gone, Evicted(processed, master, processing));
    }
    SeenAll(order, gone, Evicted(processed, master, processing), processed);
  }

  /** The series of the newest raw file whose name gives the key `s`, if it can be read. */
  function NewestFrame(csvs: Listing): string -> Option<Series>
  {
    s => FrameAt(csvs, NewestIndex(csvs, |csvs|, KeyIs(SyncKey, s)))
  }

  /**
   * `rebuild_merged_from_processed` (lines 47-94): the processed keywords, sorted, each
   * contributing the newest raw file under its safe name (when one exists and can be read), joined
   * into one table; no frame at all leaves no merged dataset.
   */
  method RebuildMerged(processedFile: File, raw: Listing) returns (merged: Option<Table>, ghost order: seq<string>)
    ensures Sorted(order) && Enumerates(order, ReadKeywordSet(processedFile))
    ensures merged == Joined(ColumnsOf(order, SafeKw, NewestFrame(FilterEntries(raw, CsvOnly()))))
  {
    var processed := ReadKeywordSet(processedFile);
    var csvs := FilterEntries(raw, CsvOnly());
    var latest, keys := LatestPerKey(csvs, SyncKey);
    var sorted := SortedSet(processed);
    order := sorted;
    var dfs := CollectLatest(sorted, csvs, latest);
    LatestFramesAgree(csvs, latest, sorted);
    merged := Joined(dfs);
  }

  /** The frame of the file `latest` holds for a key, if any. */
  function LatestFrames(csvs: Listing, latest: map<string, nat>): string -> Option<Series>
  {
    s => if s in latest && latest[s] < |csvs| then csvs[latest[s]].file.frame else None
  }

  /** With `latest` the newest file per key, reading through it reads the newest frames. */
  lemma LatestFramesAgree(csvs: Listing, latest: map<string, nat>, keys: seq<string>)
    requires forall k :: k in latest <==> exists j :: 0 <= j < |csvs| && SyncKey(csvs[j].name) == k
    requires forall k :: k in latest ==> Some(latest[k]) == NewestIndex(csvs, |csvs|, KeyIs(SyncKey, k))
    ensures ColumnsOf(keys, SafeKw, LatestFrames(csvs, latest)) == ColumnsOf(keys, SafeKw, NewestFrame(csvs))
  {
    forall i | 0 <= i < |keys| ensures LatestFrames(csvs, latest)(SafeKw(keys[i])) == NewestFrame(csvs)(SafeKw(keys[i])) {
      LatestFrame(csvs, latest, SafeKw(keys[i]));
    }
    ColumnsOfSamePick(keys, SafeKw, LatestFrames(csvs, latest), NewestFrame(csvs));
  }

  /**
   * The frame loop of `rebuild_merged_from_processed` (lines 66-80): for each keyword in turn, the
   * newest raw file under its safe name, when there is one and it can be read.
   */
  method CollectLatest(sorted: seq<string>, csvs: Listing, latest: map<string, nat>) returns (dfs: seq<Column>)
    ensures dfs == ColumnsOf(sorted, SafeKw, LatestFrames(csvs, latest))
  {
    dfs := [];
    for i := 0 to |sorted|
      invariant dfs == ColumnsOf(sorted[..i], SafeKw, LatestFrames(csvs, latest))
    {
      var safe := SafeKw(sorted[i]);
      ghost var before := dfs;
      if safe in latest && latest[safe] < |csvs| {
        var frame := csvs[latest[safe]].file.frame;
        if frame.Some? {
          dfs := dfs + [Column(safe, frame.value)];
        }
      }
      ColumnsOfStep(sorted, i, SafeKw, LatestFrames(csvs, latest), before, dfs);
    }
    assert sorted[..|sorted|] == sorted;
  }

  /** The file `latest` holds for a key is the one whose frame `NewestFrame` reads; no entry, no frame. */
  lemma LatestFrame(csvs: Listing, latest: map<string, nat>, s: string)
    requires s in latest <==> exists j :: 0 <= j < |csvs| && SyncKey(csvs[j].name) == s
    requires s in latest ==> Some(latest[s]) == NewestIndex(csvs, |csvs|, KeyIs(SyncKey, s))
    ensures s in latest ==> latest[s] < |csvs|
    ensures NewestFrame(csvs)(s) == if s in latest then csvs[latest[s]].file.frame else None
  {
    NewestIndexSpec(csvs, |csvs|, KeyIs(SyncKey, s));
  }

  /** The status sets a sync reads. */
  function ReadQueues(unpro: File, processing: File, processed: File, failed: File): Queues
  {
    Queues(ReadKeywordSet(unpro), ReadKeywordSet(processing), ReadKeywordSet(processed), ReadKeywordSet(failed))
  }

  /** What a sync did: nothing without a master file, else the keywords added and removed. */
  datatype Report = NoMaster | Synced(added: seq<string>, fromUnpro: seq<string>, fromFailed: seq<string>, fromProcessed: seq<Removal>)

  /**
   * Steps 1 and 2 of `main` (lines 111-150), each loop over the sorted set it edits: the
   * reconciled status sets, and the raw listing without the files of the evicted keywords.
   */
  method ReconcileSets(before: Queues, m: set<string>, raw: Listing) returns (r: Queues, rawAfter: Listing, report: Report)
    requires forall k :: k in before.processed ==> GlobLiteral(k)
    ensures r == Reconciled(before, m)
    ensures rawAfter == FilterEntries(raw, Unclaimed(Evicted(before.processed, m, before.processing)))
    ensures report.Synced?
  {
    var byName := SortedSet(m);
    var unpro, added := AddNew(byName, before, m);
    var unproOrder := SortedSet(unpro);
    var fromUnpro;
    unpro, fromUnpro := KeepInMaster(unproOrder, unpro, m);
    var failedOrder := SortedSet(before.failed);
    var failed, fromFailed := KeepInMaster(failedOrder, before.failed, m);
    var processedOrder := SortedSet(before.processed);
    var processed, fromProcessed;
    processed, rawAfter, fromProcessed := DropEvicted(processedOrder, before.processed, m, before.processing, raw);
    r := Queues(unpro, before.processing, processed, failed);
    report := Synced(added, fromUnpro, fromFailed, fromProcessed);
  }

  /**
   * `main` (lines 96-180). Without a master file nothing changes. Otherwise unprocessed, failed
   * and processed are rewritten, sorted, with the reconciled sets; processing is left as it is;
   * the raw files of the evicted keywords are deleted; and the merged dataset is rebuilt from the
   * processed file just written.
   */
  method Sync(q: KeywordFiles, master: File, raw: Listing, merged: Option<Table>)
    returns (report: Report, rawAfter: Listing, mergedAfter: Option<Table>, ghost order: seq<string>)
    requires forall k :: k in ReadKeywordSet(q.processed) ==> GlobLiteral(k)
    modifies q
    ensures master.None? ==> (
      && report == NoMaster && rawAfter == raw && mergedAfter == merged
      && q.unprocessed == old(q.unprocessed) && q.processing == old(q.processing)
      && q.processed == old(q.processed) && q.failed == old(q.failed))
    ensures master.Some? ==>
      var before := ReadQueues(old(q.unprocessed), old(q.processing), old(q.processed), old(q.failed));
      var m := ReadKeywordSet(master);
      var r := Reconciled(before, m);
      && Lists(q.unprocessed, r.unpro) && Lists(q.failed, r.failed) && Lists(q.processed, r.processed)
      && q.processing == old(q.processing)
      && rawAfter == FilterEntries(raw, Unclaimed(Evicted(before.processed, m, before.processing)))
      && Sorted(order) && Enumerates(order, r.processed)
      && mergedAfter == Joined(ColumnsOf(order, SafeKw, NewestFrame(FilterEntries(rawAfter, CsvOnly()))))
  {
    if master.None? {
      return NoMaster, raw, merged, [];
    }
    var m := ReadKeywordSet(master);
    var before := ReadQueues(q.unprocessed, q.processing, q.processed, q.failed);
    var r;
    r, rawAfter, report := ReconcileSets(before, m, raw);
    var unproLines := SortedSet(r.unpro);
    var failedLines := SortedSet(r.failed);
    var processedLines := SortedSet(r.processed);
    assert Lists(Some(unproLines), r.unpro) && Lists(Some(failedLines), r.failed) && Lists(Some(processedLines), r.processed);
    ReadKeywordSetKeywords(q.processed);
    KeywordSetRoundTrip(Some(processedLines), r.processed);
    mergedAfter, order := RebuildMerged(Some(processedLines), rawAfter);
    q.unprocessed := Some(unproLines);
    q.failed := Some(failedLines);
    q.processed := Some(processedLines);
    assert before == ReadQueues(old(q.unprocessed), old(q.processing), old(q.processed), old(q.failed));
  }
}

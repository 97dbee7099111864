/**
 * The weekly sync (script_weekly/sync_master_weekly.py): the same reconciliation as the monthly
 * sync, over status files that keep `#` lines, with the master's iteration order left open; the
 * data of an evicted keyword is its folder of window files and its stitched weekly file.
 */
module SyncWeekly {
  import opened Wrappers
  import opened Seqs
  import opened Lines
  import opened StringOrder
  import opened Naming
  import opened Series
  import opened Table
  import opened Queue
  import opened Reconcile

  /** The window folders: folder name to the names of the files in it, in the order `os.walk` gives. */
  type WindowDirs = map<string, seq<string>>

  /** The stitched weekly files, by file name. */
  type WeeklyFiles = map<string, CsvFile>

  /** `f"{sk}_weekly.csv"`. */
  function WeeklyName(safe: string): string
  {
    safe + "_weekly.csv"
  }

  /** A deleted path: a file in a keyword's window folder, or a stitched weekly file. */
  datatype Deleted = WindowFile(folder: string, name: string) | WeeklyFile(name: string)

  /**
   * `delete_raw_files_for_keyword` (lines 49-70): the keyword's window folder goes with every file
   * in it, then its weekly file; every deleted file is reported, window files first.
   */
  method DeleteRawFiles(windows: WindowDirs, weekly: WeeklyFiles, kw: string)
    returns (windowsAfter: WindowDirs, weeklyAfter: WeeklyFiles, deleted: seq<Deleted>)
    ensures windowsAfter == windows - {SafeKw(kw)}
    ensures weeklyAfter == weekly - {WeeklyName(SafeKw(kw))}
    ensures forall f, n :: WindowFile(f, n) in deleted <==> f == SafeKw(kw) && f in windows && n in windows[f]
    ensures forall n :: WeeklyFile(n) in deleted <==> n == WeeklyName(SafeKw(kw)) && n in weekly
  {
    var sk := SafeKw(kw);
    deleted := [];
    if sk in windows {
      var files := windows[sk];
      for i := 0 to |files|
        invariant forall d :: d in deleted <==> d.WindowFile? && d.folder == sk && d.name in files[..i]
      {
        assert forall n :: n in files[..i + 1] <==> n in files[..i] || n == files[i] by {
          TakeSnoc(files, i);
        }
        deleted := deleted + [WindowFile(sk, files[i])];
      }
      assert files[..|files|] == files;
    }
    windowsAfter := windows - {sk};
    var wf := WeeklyName(sk);
    weeklyAfter := weekly;
    if wf in weekly {
      weeklyAfter := weekly - {wf};
      deleted := deleted + [WeeklyFile(wf)];
    }
  }

  /** The safe names of some keywords. */
  function SafeNames(ks: set<string>): set<string>
  {
    set k | k in ks :: SafeKw(k)
  }

  /** The weekly file names of some keywords. */
  function WeeklyNames(ks: set<string>): set<string>
  {
    set k | k in ks :: WeeklyName(SafeKw(k))
  }

  /** A keyword removed from processed, with the files deleted for it. */
  datatype Removal = Removal(kw: string, deleted: seq<Deleted>)

  /** What the processed loop has done once the keywords `gone` were evicted. */
  ghost predicate Dropped(processed: set<string>, windows: WindowDirs, weekly: WeeklyFiles, gone: set<string>,
                          kept: set<string>, windowsAfter: WindowDirs, weeklyAfter: WeeklyFiles, removed: seq<Removal>)
  {
    && kept == processed - gone
    && windowsAfter == windows - SafeNames(gone)
    && weeklyAfter == weekly - WeeklyNames(gone)
    && (forall r :: r in removed ==> r.kw in gone)
  }

  /** One pass of the processed loop (lines 151-158) for the keyword `kw`. */
  method DropOne(kw: string, processed: set<string>, master: set<string>, processing: set<string>,
                 ghost windows: WindowDirs, ghost weekly: WeeklyFiles, ghost gone: set<string>,
                 kept: set<string>, windowsAfter: WindowDirs, weeklyAfter: WeeklyFiles, removed: seq<Removal>)
    returns (kept': set<string>, windowsAfter': WindowDirs, weeklyAfter': WeeklyFiles, removed': seq<Removal>, ghost gone': set<string>)
    requires kw in processed
    requires Dropped(processed, windows, weekly, gone, kept, windowsAfter, weeklyAfter, removed)
    ensures gone' == if kw in Evicted(processed, master, processing) then gone + {kw} else gone
    ensures Dropped(processed, windows, weekly, gone', kept', windowsAfter', weeklyAfter', removed')
  {
    kept', windowsAfter', weeklyAfter', removed', gone' := kept, windowsAfter, weeklyAfter, removed, gone;
    if kw !in master {
      if kw !in processing {
        var files;
        assert SafeNames(gone + {kw}) == SafeNames(gone) + {SafeKw(kw)};
        assert WeeklyNames(gone + {kw}) == WeeklyNames(gone) + {WeeklyName(SafeKw(kw))};
        windowsAfter', weeklyAfter', files := DeleteRawFiles(windowsAfter, weeklyAfter, kw);
        kept' := kept - {kw};
        removed' := removed + [Removal(kw, files)];
        gone' := gone + {kw};
      }
    }
  }

  /**
   * The processed loop of step 2 (lines 150-158), over `list(processed)`: a keyword outside the
   * master is skipped while in processing, otherwise its data is deleted and it is removed.
   */
  method DropEvicted(order: seq<string>, processed: set<string>, master: set<string>, processing: set<string>,
                     windows: WindowDirs, weekly: WeeklyFiles)
    returns (kept: set<string>, windowsAfter: WindowDirs, weeklyAfter: WeeklyFiles, removed: seq<Removal>)
    requires Enumerates(order, processed)
    ensures kept == processed - Evicted(processed, master, processing)
    ensures windowsAfter == windows - SafeNames(Evicted(processed, master, processing))
    ensures weeklyAfter == weekly - WeeklyNames(Evicted(processed, master, processing))
    ensures forall r :: r in removed ==> r.kw in Evicted(processed, master, processing)
  {
    kept := processed;
    windowsAfter, weeklyAfter := windows, weekly;
    removed := [];
    ghost var gone: set<string> := {};
    assert SafeNames(gone) == {} && WeeklyNames(gone) == {};
    for n := 0 to |order|
      invariant forall y :: y in gone <==> y in order[..n] && y in Evicted(processed, master, processing)
      invariant Dropped(processed, windows, weekly, gone, kept, windowsAfter, weeklyAfter, removed)
    {
      var kw := order[n];
      ghost var before := gone;
      kept, windowsAfter, weeklyAfter, removed, gone :=
        DropOne(kw, processed, master, processing, windows, weekly, gone, kept, windowsAfter, weeklyAfter, removed);
      SeenStep(order, n, before, gone, Evicted(processed, master, processing));
    }
    SeenAll(order, gone, Evicted(processed, master, processing), processed);
  }

  /** The series of a keyword's stitched weekly file, if it exists and can be read. */
  function WeeklyFrame(weekly: WeeklyFiles): string -> Option<Series>
  {
    s => if WeeklyName(s) in weekly then weekly[WeeklyName(s)].frame else None
  }

  /**
   * `rebuild_weekly_merged` (lines 77-105): the processed keywords, sorted, each contributing its
   * weekly file under its safe name (when it exists and can be read), joined into one table; no
   * frame at all leaves no merged dataset.
   */
  method RebuildMerged(processedFile: File, weekly: WeeklyFiles) returns (merged: Option<Table>, ghost order: seq<string>)
    ensures Sorted(order) && Enumerates(order, ReadTopicSet(processedFile))
    ensures merged == Joined(ColumnsOf(order, SafeKw, WeeklyFrame(weekly)))
  {
    var processed := ReadTopicSet(processedFile);
    var sorted := SortedSet(processed);
    order := sorted;
    var dfs: seq<Column> := [];
    for i := 0 to |sorted|
      invariant dfs == ColumnsOf(sorted[..i], SafeKw, WeeklyFrame(weekly))
    {
      var sk := SafeKw(sorted[i]);
      ghost var before := dfs;
      var f := WeeklyName(sk);
      if f in weekly {
        var frame := weekly[f].frame;
        if frame.Some? {
          dfs := dfs + [Column(sk, frame.value)];
        }
      }
      ColumnsOfStep(sorted, i, SafeKw, WeeklyFrame(weekly), before, dfs);
    }
    assert sorted[..|sorted|] == sorted;
    merged := Joined(dfs);
  }

  /** The status sets a sync reads. */
  function ReadQueues(unpro: File, processing: File, processed: File, failed: File): Queues
  {
    Queues(ReadTopicSet(unpro), ReadTopicSet(processing), ReadTopicSet(processed), ReadTopicSet(failed))
  }

  /** What a sync did: nothing without a master file, else the keywords added and removed. */
  datatype Report = NoMaster | Synced(added: seq<string>, fromUnpro: seq<string>, fromFailed: seq<string>, fromProcessed: seq<Removal>)

  /**
   * Steps 1 and 2 of `main` (lines 126-158), each loop in some order of the set it walks: the
   * reconciled status sets, and the data folders without the evicted keywords' files.
   */
  method ReconcileSets(before: Queues, m: set<string>, windows: WindowDirs, weekly: WeeklyFiles)
    returns (r: Queues, windowsAfter: WindowDirs, weeklyAfter: WeeklyFiles, report: Report)
    ensures r == Reconciled(before, m)
    ensures windowsAfter == windows - SafeNames(Evicted(before.processed, m, before.processing))
    ensures weeklyAfter == weekly - WeeklyNames(Evicted(before.processed, m, before.processing))
    ensures report.Synced?
  {
    var masterOrder := ListSet(m);
    var unpro, added := AddNew(masterOrder, before, m);
    var unproOrder := ListSet(unpro);
    var fromUnpro;
    unpro, fromUnpro := KeepInMaster(unproOrder, unpro, m);
    var failedOrder := ListSet(before.failed);
    var failed, fromFailed := KeepInMaster(failedOrder, before.failed, m);
    var processedOrder := ListSet(before.processed);
    var processed, fromProcessed;
    processed, windowsAfter, weeklyAfter, fromProcessed :=
      DropEvicted(processedOrder, before.processed, m, before.processing, windows, weekly);
    r := Queues(unpro, before.processing, processed, failed);
    report := Synced(added, fromUnpro, fromFailed, fromProcessed);
  }

  /** Everything the weekly reader returns can be written and read back. */
  lemma ReadTopicSetClean(f: File)
    ensures forall x :: x in ReadTopicSet(f) ==> Clean(x)
  {
    NonBlankStrippedAllClean(Contents(f));
    forall x | x in ReadTopicSet(f) ensures Clean(x) {
      var i :| 0 <= i < |NonBlankStripped(Contents(f))| && NonBlankStripped(Contents(f))[i] == x;
    }
  }

  /**
   * `main` (lines 112-186). Without a master file nothing changes. Otherwise unprocessed, failed
   * and processed are rewritten, sorted, with the reconciled sets; processing is left as it is;
   * the window folders and weekly files of the evicted keywords are deleted; and the merged
   * dataset is rebuilt from the processed file just written.
   */
  method Sync(q: KeywordFiles, master: File, windows: WindowDirs, weekly: WeeklyFiles, merged: Option<Table>)
    returns (report: Report, windowsAfter: WindowDirs, weeklyAfter: WeeklyFiles, mergedAfter: Option<Table>, ghost order: seq<string>)
    modifies q
    ensures master.None? ==> (
      && report == NoMaster && windowsAfter == windows && weeklyAfter == weekly && mergedAfter == merged
      && q.unprocessed == old(q.unprocessed) && q.processing == old(q.processing)
      && q.processed == old(q.processed) && q.failed == old(q.failed))
    ensures master.Some? ==>
      var before := ReadQueues(old(q.unprocessed), old(q.processing), old(q.processed), old(q.failed));
      var m := ReadTopicSet(master);
      var r := Reconciled(before, m);
      var gone := Evicted(before.processed, m, before.processing);
      && Lists(q.unprocessed, r.unpro) && Lists(q.failed, r.failed) && Lists(q.processed, r.processed)
      && q.processing == old(q.processing)
      && windowsAfter == windows - SafeNames(gone) && weeklyAfter == weekly - WeeklyNames(gone)
      && Sorted(order) && Enumerates(order, r.processed)
      && mergedAfter == Joined(ColumnsOf(order, SafeKw, WeeklyFrame(weeklyAfter)))
  {
    if master.None? {
      return NoMaster, windows, weekly, merged, [];
    }
    var m := ReadTopicSet(master);
    var before := ReadQueues(q.unprocessed, q.processing, q.processed, q.failed);
    var r;
    r, windowsAfter, weeklyAfter, report := ReconcileSets(before, m, windows, weekly);
    var unproLines := SortedSet(r.unpro);
    var failedLines := SortedSet(r.failed);
    var processedLines := SortedSet(r.processed);
    assert Lists(Some(unproLines), r.unpro) && Lists(Some(failedLines), r.failed) && Lists(Some(processedLines), r.processed);
    ReadTopicSetClean(q.processed);
    TopicSetRoundTrip(Some(processedLines), r.processed);
    mergedAfter, order := RebuildMerged(Some(processedLines), weeklyAfter);
    q.unprocessed := Some(unproLines);
    q.failed := Some(failedLines);
    q.processed := Some(processedLines);
    assert before == ReadQueues(old(q.unprocessed), old(q.processing), old(q.processed), old(q.failed));
  }
}

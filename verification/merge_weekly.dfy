/**
 * The weekly merge (script_weekly/merge_weekly.py): every processed keyword, in sorted order,
 * contributes its newest raw weekly file as one column of the wide weekly dataset.
 */
module MergeWeekly {
  import opened Wrappers
  import opened Seqs
  import opened Lines
  import opened StringOrder
  import opened Naming
  import opened Series
  import opened Table

  /** `read_lines` (lines 17-21): the stripped non-blank lines, in file order; a missing file has none. */
  function ReadLines(f: File): (r: seq<string>)
    ensures |r| <= |Contents(f)|
    ensures forall i :: 0 <= i < |r| ==> Clean(r[i])
  {
    NonBlankStrippedAllClean(Contents(f));
    NonBlankStripped(Contents(f))
  }

  /** The names `glob("{safe}_*.csv")` lists. */
  function GlobOf(safe: string): string -> bool
  {
    n => MatchesKeywordGlob(n, safe)
  }

  /** The series of the newest file the keyword glob of `safe` lists, if there is one and it can be read. */
  function NewestMatch(raw: Listing): string -> Option<Series>
  {
    s => FrameAt(raw, NewestIndex(raw, |raw|, GlobOf(s)))
  }

  /** No file in the listing matches the glob of `safe`. */
  predicate NoMatch(raw: Listing, safe: string)
  {
    forall j :: 0 <= j < |raw| ==> !MatchesKeywordGlob(raw[j].name, safe)
  }

  /**
   * `max(glob(...), key=getmtime)` (lines 42-49): the first of the newest files the glob of `safe`
   * lists, or none exactly when it lists nothing.
   */
  method NewestFile(raw: Listing, safe: string) returns (latest: Option<nat>)
    requires GlobLiteral(safe)
    ensures latest == NewestIndex(raw, |raw|, GlobOf(safe))
    ensures latest.None? <==> NoMatch(raw, safe)
    ensures latest.Some? ==> FirstNewestAt(raw, |raw|, GlobOf(safe), latest.value)
  {
    latest := Newest(raw, GlobOf(safe));
    NewestIndexSpec(raw, |raw|, GlobOf(safe));
  }

  /** How a run ends. */
  datatype Outcome =
    | NoKeywords         // the dataset was removed if it existed
    | NothingToMerge     // every keyword missing or unreadable: the old dataset is left as it was
    | WrittenThenCrashed // the dataset was written, then the legacy copy raised `NameError`

  /** What the loop of `main` has gathered after visiting the keywords `done`. */
  ghost predicate Gathered(done: seq<string>, raw: Listing, dfs: seq<Column>, missing: seq<string>)
  {
    && dfs == ColumnsOf(done, SafeKw, NewestMatch(raw))
    && forall k :: k in missing <==> k in done && NoMatch(raw, SafeKw(k))
  }

  /** One pass of the loop of `main` (lines 40-55) for the keyword `pk`. */
  method Visit(ghost done: seq<string>, pk: string, raw: Listing, dfs: seq<Column>, missing: seq<string>)
    returns (dfs': seq<Column>, missing': seq<string>)
    requires Gathered(done, raw, dfs, missing)
    requires GlobLiteral(pk)
    ensures Gathered(done + [pk], raw, dfs', missing')
  {
    var safe := SafeKw(pk);
    SafeKwGlobLiteral(pk);
    ColumnsOfSnoc(done, pk, SafeKw, NewestMatch(raw));
    var latest := NewestFile(raw, safe);
    dfs', missing' := dfs, missing;
    if latest.None? {
      missing' := missing + [pk];
    } else {
      var frame := raw[latest.value].file.frame;
      if frame.Some? {
        dfs' := dfs + [Column(safe, frame.value)];
      }
    }
  }

  /**
   * The loop of `main` (lines 37-55) over `sorted(processed)`: each keyword with a matching file
   * contributes its newest one (when readable) under its safe name; keywords with none are
   * recorded as missing.
   */
  method CollectFrames(keys: seq<string>, raw: Listing) returns (dfs: seq<Column>, missing: seq<string>)
    requires forall i :: 0 <= i < |keys| ==> GlobLiteral(keys[i])
    ensures dfs == ColumnsOf(keys, SafeKw, NewestMatch(raw))
    ensures forall k :: k in missing <==> k in keys && NoMatch(raw, SafeKw(k))
  {
    dfs := [];
    missing := [];
    for i := 0 to |keys|
      invariant Gathered(keys[..i], raw, dfs, missing)
    {
      dfs, missing := Visit(keys[..i], keys[i], raw, dfs, missing);
      TakeSnoc(keys, i);
    }
    assert keys[..|keys|] == keys;
  }

  /**
   * `main` (lines 26-74). No processed keyword removes the dataset. Otherwise the frames are
   * collected in sorted keyword order (a keyword listed twice contributes twice); with none the
   * old dataset stays, else the joined table is written and the run then fails on the undefined
   * legacy directory.
   */
  method Merge(processedFile: File, raw: Listing, merged: Option<Table>) returns (out: Outcome, mergedAfter: Option<Table>, missing: seq<string>)
    requires forall k :: k in ReadLines(processedFile) ==> GlobLiteral(k)
    ensures ReadLines(processedFile) == [] ==> out == NoKeywords && mergedAfter == None
    ensures ReadLines(processedFile) != [] ==>
      var cols := ColumnsOf(Sort(ReadLines(processedFile)), SafeKw, NewestMatch(raw));
      && (cols == [] ==> out == NothingToMerge && mergedAfter == merged)
      && (cols != [] ==> out == WrittenThenCrashed && mergedAfter == Some(OuterJoin(cols)))
    ensures forall k :: k in missing <==> k in ReadLines(processedFile) && NoMatch(raw, SafeKw(k))
  {
    var processed := ReadLines(processedFile);
    if processed == [] {
      return NoKeywords, None, [];
    }
    var keys := Sort(processed);
    forall k ensures k in keys <==> k in processed {
      assert k in keys <==> k in multiset(keys);
      assert k in processed <==> k in multiset(processed);
    }
    var dfs;
    dfs, missing := CollectFrames(keys, raw);
    if dfs == [] {
      return NothingToMerge, merged, missing;
    }
    return WrittenThenCrashed, Some(OuterJoin(dfs)), missing;
  }

  /**
   * The glob of a keyword without wildcards also lists the weekly file of a keyword whose safe name extends it with
   * `_`: when that is the only file, the series of "a b" becomes column "a".
   */
  lemma OvermatchPicked(a: string, rest: string, f: CsvFile)
    requires GlobLiteral(a)
    ensures NewestMatch([Entry(a + "_" + rest + "_weekly.csv", f)])(a) == f.frame
  {
    var name := a + "_" + rest + "_weekly.csv";
    assert name == (a + "_") + (rest + "_weekly") + Csv;
    assert MatchesKeywordGlob(name, a);
  }
}

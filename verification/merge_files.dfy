/**
 * The monthly merge (script/merge_files.py): the newest raw file of every keyword, keyed by the
 * keyword its file name gives, becomes one column of a new wide dataset.
 */
module MergeFiles {
  import opened Wrappers
  import opened Naming
  import opened Series
  import opened Table

  /** The entry the scan of `latest_file_per_keyword` keeps for the key `k`, if any. */
  function NewestFor(csvs: Listing, k: string): (i: Option<nat>)
    ensures i.Some? ==> i.value < |csvs| && FileKey(csvs[i.value].name) == k
  {
    NewestIndexSpec(csvs, |csvs|, KeyIs(FileKey, k));
    NewestIndex(csvs, |csvs|, KeyIs(FileKey, k))
  }

  /**
   * The frames `main` collects (lines 32-42): for every key, in order, the series of its newest
   * file when that file can be read, named after the file's stem without its last `_` piece.
   */
  function KeyColumns(csvs: Listing, keys: seq<string>): (cols: seq<Column>)
    ensures |cols| <= |keys|
  {
    if keys == [] then []
    else
      var i := NewestFor(csvs, keys[|keys| - 1]);
      KeyColumns(csvs, keys[..|keys| - 1])
        + (if i.Some? && csvs[i.value].file.frame.Some?
           then [Column(ColumnName(csvs[i.value].name), csvs[i.value].file.frame.value)]
           else [])
  }

  /**
   * Every collected column is the series of the newest file of one of the keys, named after that
   * file; nothing is collected exactly when no key's newest file can be read.
   */
  lemma {:induction false} KeyColumnsSpec(csvs: Listing, keys: seq<string>)
    ensures var cols := KeyColumns(csvs, keys);
      && (cols == [] <==> forall k :: k in keys ==> FrameAt(csvs, NewestFor(csvs, k)).None?)
      && (forall c :: c in cols ==> exists k :: (k in keys && NewestFor(csvs, k).Some? &&
            var f := csvs[NewestFor(csvs, k).value];
            c.name == ColumnName(f.name) && f.file.frame == Some(c.rows)))
  {
    if keys != [] {
      var init := keys[..|keys| - 1];
      KeyColumnsSpec(csvs, init);
      assert forall k :: k in keys <==> k in init || k == keys[|keys| - 1] by {
        assert keys == init + [keys[|keys| - 1]];
      }
    }
  }

  /** How a run ends. */
  datatype Outcome = NoFiles | NoFrames | Written(table: Table)

  /** The loop of `main` (lines 32-42) over the keys in the order they were first seen. */
  method CollectColumns(csvs: Listing, latest: map<string, nat>, keys: seq<string>) returns (dfs: seq<Column>)
    requires forall k :: k in keys ==> k in latest && Some(latest[k]) == NewestFor(csvs, k)
    ensures dfs == KeyColumns(csvs, keys)
  {
    dfs := [];
    for i := 0 to |keys|
      invariant dfs == KeyColumns(csvs, keys[..i])
    {
      var kw := keys[i];
      assert keys[..i + 1][..i] == keys[..i];
      var f := csvs[latest[kw]];
      if f.file.frame.Some? {
        dfs := dfs + [Column(ColumnName(f.name), f.file.frame.value)];
      }
    }
    assert keys[..|keys|] == keys;
  }

  /**
   * `main` (lines 27-50): no CSV file, or no readable newest file, writes nothing; otherwise the
   * columns of the keys, in the order the keys were first seen, are joined into a new dataset.
   */
  method Merge(raw: Listing) returns (out: Outcome, keys: seq<string>)
    ensures var csvs := FilterEntries(raw, CsvOnly());
      && (forall k :: k in keys <==> exists j :: 0 <= j < |csvs| && FileKey(csvs[j].name) == k)
      && (forall a, b :: 0 <= a < b < |keys| ==> FirstSeen(csvs, FileKey, keys[a]) < FirstSeen(csvs, FileKey, keys[b]))
      && (csvs == [] ==> out == NoFiles)
      && (csvs != [] && KeyColumns(csvs, keys) == [] ==> out == NoFrames)
      && (KeyColumns(csvs, keys) != [] ==> out == Written(OuterJoin(KeyColumns(csvs, keys))))
  {
    var csvs := FilterEntries(raw, CsvOnly());
    var latest;
    latest, keys := LatestPerKey(csvs, FileKey);
    if |latest| == 0 {
      assert csvs != [] ==> FileKey(csvs[0].name) in latest;
      return NoFiles, keys;
    }
    assert csvs != [];
    var dfs := CollectColumns(csvs, latest, keys);
    if dfs == [] {
      return NoFrames, keys;
    }
    out := Written(OuterJoin(dfs));
  }
}

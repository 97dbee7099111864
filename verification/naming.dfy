/**
 * How keywords become file names and how file names become keywords again: the "safe" name
 * (spaces and slashes to underscores), the grid fetcher's `sanitize_for_filename`, Python's
 * `rsplit("_", 2)` and `split(".csv")` as the merge scripts apply them, and the two glob
 * patterns the scripts list files with.
 */
module Naming {
  import opened Wrappers
  import opened Text

  /** The characters `_` stands for in a safe name. */
  predicate Separator(c: char)
  {
    c == ' ' || c == '/' || c == '_'
  }

  /** `kw.replace(" ", "_").replace("/", "_")`: the safe name used in raw file names and columns. */
  function SafeKw(kw: string): (r: string)
    ensures |r| == |kw| && ' ' !in r && '/' !in r
    ensures forall i :: 0 <= i < |r| ==> r[i] == (if Separator(kw[i]) then '_' else kw[i])
  {
    ReplaceChar(ReplaceChar(kw, ' ', '_'), '/', '_')
  }

  /** A safe name holds no space and no slash, and making it safe again changes nothing. */
  lemma SafeKwIdempotent(kw: string)
    ensures forall i :: 0 <= i < |SafeKw(kw)| ==> SafeKw(kw)[i] != ' ' && SafeKw(kw)[i] != '/'
    ensures SafeKw(SafeKw(kw)) == SafeKw(kw)
  {
  }

  /**
   * Two keywords share a safe name exactly when they have the same length and differ only by
   * swapping spaces, slashes and underscores: "a b", "a/b" and "a_b" all write to `a_b_*.csv`.
   */
  lemma SafeKwCollision(a: string, b: string)
    ensures SafeKw(a) == SafeKw(b) <==>
      |a| == |b| && forall i :: 0 <= i < |a| ==> a[i] == b[i] || (Separator(a[i]) && Separator(b[i]))
  {
    if |a| == |b| && forall i :: 0 <= i < |a| ==> a[i] == b[i] || (Separator(a[i]) && Separator(b[i])) {
      assert forall i :: 0 <= i < |a| ==> SafeKw(a)[i] == SafeKw(b)[i];
    }
    if SafeKw(a) == SafeKw(b) {
      forall i | 0 <= i < |a| ensures a[i] == b[i] || (Separator(a[i]) && Separator(b[i])) {
        assert SafeKw(a)[i] == SafeKw(b)[i];
      }
    }
  }

  /** `c.isalnum()`, for ASCII letters and digits. */
  predicate IsAlnum(c: char)
  {
    ('a' <= c <= 'z') || ('A' <= c <= 'Z') || ('0' <= c <= '9')
  }

  /** A file-name-safe character: a letter, a digit or `_`. */
  predicate FileChar(c: char)
  {
    IsAlnum(c) || c == '_'
  }

  /** The first step of `sanitize_for_filename`: letters, digits, spaces and `_` stay, the rest become `_`. */
  function KeepOrUnderscore(name: string): (r: string)
    ensures |r| == |name|
    ensures forall c :: c in r ==> FileChar(c) || c == ' '
  {
    seq(|name|, i requires 0 <= i < |name| => if FileChar(name[i]) || name[i] == ' ' then name[i] else '_')
  }

  /** The fallback name for a keyword with nothing usable in it. */
  const Fallback := "keyword"

  /**
   * `sanitize_for_filename` (fetch_weekly_one_window.py, lines 70-73): map the characters, strip,
   * and turn the remaining spaces into `_`; an empty result becomes "keyword". The name is never
   * empty and holds only letters, digits and `_`.
   */
  function Sanitize(name: string): (r: string)
    ensures r != []
    ensures forall i :: 0 <= i < |r| ==> FileChar(r[i])
  {
    var s := Strip(KeepOrUnderscore(name));
    StripMembers(KeepOrUnderscore(name));
    if s != [] then
      assert forall i :: 0 <= i < |s| ==> s[i] in s;
      ReplaceChar(s, ' ', '_')
    else Fallback
  }

  /** A name made only of file characters is its own sanitised form. */
  lemma SanitizeFixes(name: string)
    requires name != [] && forall i :: 0 <= i < |name| ==> FileChar(name[i])
    ensures Sanitize(name) == name
  {
    var m := KeepOrUnderscore(name);
    assert m == name;
    StripFixes(m);
  }

  /** Sanitising twice is sanitising once. */
  lemma SanitizeIdempotent(name: string)
    ensures Sanitize(Sanitize(name)) == Sanitize(name)
  {
    SanitizeFixes(Sanitize(name));
  }

  /** A keyword of spaces only (or the empty keyword) falls back to "keyword". */
  lemma SanitizeBlank(name: string)
    requires forall i :: 0 <= i < |name| ==> name[i] == ' '
    ensures Sanitize(name) == Fallback
  {
    var m := KeepOrUnderscore(name);
    assert AllSpace(m);
    BlankIffAllSpace(m);
  }

  /** Any other keyword keeps its own characters: the name is no longer than the keyword. */
  lemma SanitizeOther(name: string, j: int)
    requires 0 <= j < |name| && name[j] != ' '
    ensures |Sanitize(name)| <= |name|
  {
    var m := KeepOrUnderscore(name);
    assert !IsSpace(m[j]);
    BlankIffAllSpace(m);
    StripShape(m);
  }

  /** The position of the last `c` in `s`, if any (what `rsplit` splits at). */
  function LastIndexOf(s: string, c: char): (r: Option<nat>)
    ensures r.None? ==> c !in s
    ensures r.Some? ==> r.value < |s| && s[r.value] == c && c !in s[r.value + 1..]
  {
    if s == [] then None
    else if s[|s| - 1] == c then Some(|s| - 1)
    else
      var r := LastIndexOf(s[..|s| - 1], c);
      assert s == s[..|s| - 1] + [s[|s| - 1]];
      if r.Some? then
        assert s[r.value + 1..] == s[..|s| - 1][r.value + 1..] + [s[|s| - 1]];
        r
      else r
  }

  /** The last `c` of `a + [c] + b`, where `b` has none, is the one between them. */
  lemma LastIndexOfSplit(a: string, c: char, b: string)
    requires c !in b
    ensures LastIndexOf(a + [c] + b, c) == Some(|a|)
  {
    var s := a + [c] + b;
    assert s[|a|] == c;
    var j := LastIndexOf(s, c).value;
    forall k | j < k < |s| ensures s[k] != c {
      assert s[k] in s[j + 1..];
    }
    forall k | |a| < k < |s| ensures s[k] != c {
      assert s[k] == b[k - |a| - 1];
      assert s[k] in b;
    }
    assert j == |a|;
  }

  /** `s.rsplit(c, 1)[0]`: everything before the last `c`, or all of `s` when it has none. */
  function BeforeLast(s: string, c: char): (r: string)
    ensures |r| <= |s| && r == s[..|r|]
    ensures c in s ==> |r| < |s| && s[|r|] == c && c !in s[|r| + 1..]
    ensures c !in s ==> r == s
  {
    match LastIndexOf(s, c)
    case None => s
    case Some(j) => s[..j]
  }

  /** `name.rsplit(c, 2)`: at most three pieces, split at the last two occurrences of `c`. */
  function RSplit2(s: string, c: char): (parts: seq<string>)
    ensures 1 <= |parts| <= 3
    ensures forall k :: 1 <= k < |parts| ==> c !in parts[k]
    ensures |parts| < 3 ==> c !in parts[0]
  {
    match LastIndexOf(s, c)
    case None => [s]
    case Some(j) =>
      match LastIndexOf(s[..j], c)
      case None => [s[..j], s[j + 1..]]
      case Some(i) =>
        assert s[..j][i + 1..] == s[i + 1..j];
        [s[..i], s[i + 1..j], s[j + 1..]]
  }

  /** `c.join(parts)`. */
  function Join(parts: seq<string>, c: char): string
  {
    if parts == [] then [] else if |parts| == 1 then parts[0] else parts[0] + [c] + Join(parts[1..], c)
  }

  /** Splitting and joining again gives back the name. */
  lemma RSplit2Join(s: string, c: char)
    ensures Join(RSplit2(s, c), c) == s
  {
    match LastIndexOf(s, c)
    case None =>
    case Some(j) =>
      assert s == s[..j] + [c] + s[j + 1..];
      match LastIndexOf(s[..j], c)
      case None =>
      case Some(i) =>
        assert s[..j] == s[..i] + [c] + s[i + 1..j];
        assert Join([s[i + 1..j], s[j + 1..]], c) == s[i + 1..j] + [c] + s[j + 1..];
  }

  /** `p` occurs somewhere in `s` (`p in s` on strings). */
  predicate Occurs(s: string, p: string)
  {
    |p| <= |s| && s != [] && (s[..|p|] == p || Occurs(s[1..], p))
  }

  /** The slice of `s` starting at `i` is `p`. */
  predicate OccursAtIndex(s: string, p: string, i: nat)
  {
    i + |p| <= |s| && s[i..i + |p|] == p
  }

  /** `Occurs` is the textbook "some slice of `s` is `p`". */
  lemma {:induction false} OccursAt(s: string, p: string)
    requires p != []
    ensures Occurs(s, p) <==> exists i: nat :: OccursAtIndex(s, p, i)
  {
    if |p| <= |s| {
      if s[..|p|] == p {
        assert s[0..0 + |p|] == s[..|p|];
        assert OccursAtIndex(s, p, 0);
      }
      OccursAt(s[1..], p);
      if Occurs(s[1..], p) {
        var i: nat :| OccursAtIndex(s[1..], p, i);
        assert s[i + 1..i + 1 + |p|] == s[1..][i..i + |p|];
        assert OccursAtIndex(s, p, i + 1);
      }
      if i: nat :| OccursAtIndex(s, p, i) {
        if i > 0 {
          assert s[1..][i - 1..i - 1 + |p|] == s[i..i + |p|];
          assert OccursAtIndex(s[1..], p, i - 1);
          assert Occurs(s[1..], p);
        } else {
          assert s[..|p|] == p;
        }
        assert Occurs(s, p);
      }
    } else {
      forall i: nat ensures !OccursAtIndex(s, p, i) {
      }
    }
  }

  /** The text of `s` before the first occurrence of `p` (`s.split(p)[0]`), or all of `s`. */
  function UpTo(s: string, p: string): (r: string)
    requires p != []
    ensures |r| <= |s| && r == s[..|r|]
  {
    if |s| < |p| then s
    else if s[..|p|] == p then []
    else [s[0]] + UpTo(s[1..], p)
  }

  /** When `p` occurs, it starts right after `UpTo` and not any earlier; otherwise `UpTo` is all of `s`. */
  lemma {:induction false} UpToFirst(s: string, p: string)
    requires p != []
    ensures var r := UpTo(s, p);
      (Occurs(s, p) ==> |r| + |p| <= |s| && s[|r|..|r| + |p|] == p && !Occurs(s[..|r| + |p| - 1], p))
      && (!Occurs(s, p) ==> r == s)
  {
    if |s| >= |p| && s[..|p|] != p {
      UpToFirst(s[1..], p);
      var r := UpTo(s[1..], p);
      assert UpTo(s, p) == [s[0]] + r;
      if Occurs(s[1..], p) {
        assert s[1..][..|r| + |p| - 1] == s[..|r| + 1 + |p| - 1][1..];
      } else {
        assert [s[0]] + s[1..] == s;
      }
    }
  }

  /**
   * `s.replace(p, "")`: every non-overlapping occurrence of `p`, scanning left to right, removed.
   * The text is unchanged exactly when `p` does not occur in it; otherwise at least one `p` goes.
   */
  function RemoveAll(s: string, p: string): (r: string)
    requires p != []
    ensures |r| <= |s|
    ensures Occurs(s, p) ==> |r| + |p| <= |s|
    ensures r == s <==> !Occurs(s, p)
  {
    if |s| < |p| then s
    else if s[..|p|] == p then RemoveAll(s[|p|..], p)
    else
      assert [s[0]] + s[1..] == s;
      [s[0]] + RemoveAll(s[1..], p)
  }

  const Csv := ".csv"

  /** `p` does not start anywhere inside `a` in `a + p`: the first `p` of `a + p` is the final one. */
  predicate FirstAtEnd(a: string, p: string)
  {
    forall i :: 0 <= i < |a| ==> (a + p)[i..] [..|p|] != p
  }

  lemma {:induction false} UpToEnd(a: string, p: string)
    requires p != [] && FirstAtEnd(a, p)
    ensures UpTo(a + p, p) == a
  {
    if a == [] {
      assert a + p == p;
    } else {
      assert (a + p)[0..][..|p|] != p;
      assert (a + p)[1..] == a[1..] + p;
      forall i | 0 <= i < |a[1..]| ensures (a[1..] + p)[i..][..|p|] != p {
        assert (a[1..] + p)[i..] == (a + p)[i + 1..];
      }
      UpToEnd(a[1..], p);
    }
  }

  /** `{safe}_{YYYYMMDD}_{HHMM}.csv`, the name of a monthly raw file. */
  function RunFileName(safe: string, date: string, time: string): string
  {
    safe + "_" + date + "_" + time + Csv
  }

  /**
   * The keyword part of a raw file name in `latest_file_per_keyword` (merge_files.py, lines
   * 14-20): the text before the second-to-last `_`; with a single `_`, the text before it; with
   * none, the name up to its first ".csv".
   */
  function FileKey(name: string): string
  {
    var parts := RSplit2(name, '_');
    if |parts| == 3 then parts[0]
    else if |parts| == 2 then BeforeLast(parts[0], '_')
    else UpTo(name, Csv)
  }

  /**
   * The keyword part of a raw file name in `rebuild_merged_from_processed`
   * (sync_master_and_cleanup.py, lines 56-61): the first piece of `rsplit("_", 2)` when there are
   * at least two, else the name with every ".csv" removed.
   */
  function SyncKey(name: string): string
  {
    var parts := RSplit2(name, '_');
    if |parts| >= 2 then parts[0] else RemoveAll(name, Csv)
  }

  /** The column a raw file's series gets in `merge_files.main` (line 38): the stem up to its last `_`. */
  function ColumnName(name: string): string
  {
    BeforeLast(UpTo(name, Csv), '_')
  }

  /** Both merge scripts read back the safe name a monthly run wrote, whatever `_`s it holds. */
  lemma RunFileKeys(safe: string, date: string, time: string)
    requires '_' !in date && '_' !in time
    ensures FileKey(RunFileName(safe, date, time)) == safe
    ensures SyncKey(RunFileName(safe, date, time)) == safe
  {
    var name := RunFileName(safe, date, time);
    assert '_' !in time + Csv;
    assert name == (safe + "_" + date) + ['_'] + (time + Csv);
    LastIndexOfSplit(safe + "_" + date, '_', time + Csv);
    var j := |safe + "_" + date|;
    assert name[..j] == safe + ['_'] + date;
    LastIndexOfSplit(safe, '_', date);
    assert name[..j][..|safe|] == safe;
  }

  /**
   * The column `merge_files` names a monthly run's series is the safe name plus its date, not the
   * key it was grouped under: `merge_files` columns are `<safe>_<YYYYMMDD>`.
   */
  lemma RunFileColumn(safe: string, date: string, time: string)
    requires '_' !in date && '_' !in time
    requires FirstAtEnd(safe + "_" + date + "_" + time, Csv)
    ensures ColumnName(RunFileName(safe, date, time)) == safe + "_" + date
    ensures ColumnName(RunFileName(safe, date, time)) != FileKey(RunFileName(safe, date, time))
  {
    var stem := safe + "_" + date + "_" + time;
    UpToEnd(stem, Csv);
    assert stem == (safe + "_" + date) + ['_'] + time;
    LastIndexOfSplit(safe + "_" + date, '_', time);
    RunFileKeys(safe, date, time);
  }

  /**
   * No character of `s` is one of the wildcards `*`, `?` and `[` of `fnmatch`: a glob pattern
   * built on `s` reads `s` as literal text.
   */
  predicate GlobLiteral(s: string)
  {
    forall i :: 0 <= i < |s| ==> s[i] != '*' && s[i] != '?' && s[i] != '['
  }

  /** Making a keyword safe neither adds nor removes wildcards. */
  lemma SafeKwGlobLiteral(kw: string)
    ensures GlobLiteral(SafeKw(kw)) <==> GlobLiteral(kw)
  {
  }

  /**
   * `glob("{safe}_*.csv")` for a safe name that is `GlobLiteral`: the names that start with
   * `safe_` and end with ".csv". (The pattern is not escaped, so a wildcard in `safe` would
   * widen or narrow what the glob lists; this predicate describes only the literal case.)
   */
  predicate MatchesKeywordGlob(name: string, safe: string)
  {
    && |name| >= |safe| + 1 + |Csv|
    && name[..|safe| + 1] == safe + "_"
    && name[|name| - |Csv|..] == Csv
  }

  /** `glob("*.csv")`: names ending in ".csv" that are not hidden. */
  predicate MatchesCsvGlob(name: string)
  {
    |name| >= |Csv| && name[|name| - |Csv|..] == Csv && name[0] != '.'
  }

  /** A run file matches the glob of its own safe name. */
  lemma RunFileMatches(safe: string, date: string, time: string)
    requires GlobLiteral(safe)
    ensures MatchesKeywordGlob(RunFileName(safe, date, time), safe)
  {
    var name := RunFileName(safe, date, time);
    assert name == (safe + "_") + (date + "_" + time) + Csv;
  }

  /**
   * The keyword glob also catches the files of every keyword whose safe name extends this one
   * with `_`: deleting or merging "a" picks up the files of "a b" as well.
   */
  lemma KeywordGlobOvermatch(safe: string, rest: string, date: string, time: string)
    requires GlobLiteral(safe)
    ensures MatchesKeywordGlob(RunFileName(safe + "_" + rest, date, time), safe)
  {
    var name := RunFileName(safe + "_" + rest, date, time);
    assert name == (safe + "_") + (rest + "_" + date + "_" + time) + Csv;
  }
}

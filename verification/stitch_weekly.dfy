/**
 * The weekly stitcher of `script_weekly/stitch_weekly_keyword.py`. The raw windows of one
 * keyword are read in file-name order and chained left to right. Each new window is rescaled so
 * that its median over the overlap with the previous window matches the median of what has been
 * stitched so far over that overlap. Only the part after the previous window's end is appended,
 * and on a repeated timestamp the newer row wins. The model sorts after every pass; when the
 * window ends follow file order this is the source's plain concatenation, sorted once at the end.
 */
module StitchWeekly {
  import opened Wrappers
  import opened Calendar
  import opened Series
  import StringOrder

  /**
   * The rescaling factor for a new window, from the present values of the old and the new
   * overlap slices: the ratio of their medians when both have a present value and the new median
   * is positive, and no scaling otherwise (the guard of line 33, which also stands for the
   * `except` branch).
   */
  function Factor(po: seq<real>, pn: seq<real>): Option<real>
  {
    if |po| > 0 && |pn| > 0 && Median(pn) > 0.0 then Some(Median(po) / Median(pn)) else None
  }

  /**
   * After rescaling, the new overlap has the same median as the old one (the provider's values
   * are non-negative); `PresentScale` shows the rescaled overlap's present values are `pn`
   * scaled.
   */
  lemma FactorAligns(po: seq<real>, pn: seq<real>, c: real)
    requires Factor(po, pn) == Some(c)
    requires Median(po) >= 0.0
    ensures Median(ScaleReals(pn, c)) == Median(po)
  {
    MedianAligned(po, pn, c);
  }

  /** An old overlap of 10, 20, 30 and a new overlap of 5, 10, 15 give the factor 2. */
  lemma FactorExample(po: seq<real>, pn: seq<real>)
    requires po == [10.0, 20.0, 30.0] && pn == [5.0, 10.0, 15.0]
    ensures Factor(po, pn) == Some(2.0)
  {
    MedianOfThree(10.0, 20.0, 30.0);
    MedianOfThree(5.0, 10.0, 15.0);
    var mo, mn := Median(po), Median(pn);
    assert mo == 20.0 && mn == 10.0;
    assert Factor(po, pn) == Some(mo / mn);
  }

  /** Three values in order have the middle one as their median. */
  lemma MedianOfThree(a: real, b: real, c: real)
    requires a <= b <= c
    ensures Median([a, b, c]) == b
  {
    var t := [a, b, c];
    assert Middle(t) == b by {
      assert |t| == 3;
    }
    assert SortedReals(t) by {
      forall i, j | 0 <= i < j < 3 ensures t[i] <= t[j] { }
    }
    MedianOfSorted(t);
  }

  /** `max(prev_s, s)` and `min(prev_e, e)`: the overlap of two windows' bounds. */
  function OverlapStart(prev: Window, cur: Window): Day
  {
    if prev.start < cur.start then cur.start else prev.start
  }

  function OverlapEnd(prev: Window, cur: Window): Day
  {
    if prev.end < cur.end then prev.end else cur.end
  }

  /** `df_scaled`: the new window, rescaled when the overlap guard holds and unchanged otherwise. */
  function Scaled(stitched: Series, prev: Window, cur: Window): (r: Series)
    ensures SameDays(cur.rows, r)
  {
    var lo, hi := OverlapStart(prev, cur), OverlapEnd(prev, cur);
    match Factor(Present(Slice(stitched, lo, hi)), Present(Slice(cur.rows, lo, hi)))
    case Some(c) => ScaleRows(cur.rows, c)
    case None => cur.rows
  }

  /**
   * `df_scaled.loc[prev_e + 1 day:]`: the part of the new window after the previous window's end,
   * on exactly the timestamps the new window has there.
   */
  function Tail(stitched: Series, prev: Window, cur: Window): (t: Series)
    requires Increasing(cur.rows)
    ensures Increasing(t)
    ensures forall x :: x in t ==> prev.end < x.day
    ensures forall d :: d in Days(t) <==> d in Days(cur.rows) && prev.end < d
  {
    var s := Scaled(stitched, prev, cur);
    SameDaysIncreasing(cur.rows, s);
    FromDays(cur.rows, prev.end + 1);
    FromSameDays(cur.rows, s, prev.end + 1);
    From(s, prev.end + 1)
  }

  /**
   * One iteration of the loop (lines 25-39): the tail is concatenated to the stitched series and
   * duplicates are dropped keeping the last. The result stays strictly increasing, holds every
   * tail row, and keeps exactly the older rows on timestamps the tail does not have.
   */
  function Step(stitched: Series, prev: Window, cur: Window): (r: Series)
    requires Increasing(stitched) && Increasing(cur.rows)
    ensures Increasing(r)
    ensures forall x :: x in r <==>
      x in Tail(stitched, prev, cur) || (x in stitched && x.day !in Days(Tail(stitched, prev, cur)))
  {
    var t := Tail(stitched, prev, cur);
    MergeMembers(stitched, t);
    MergeIncreasing(stitched, t);
    Merge(stitched, t)
  }

  /** A step never touches a row at or before the previous window's end. */
  lemma StepKeeps(stitched: Series, prev: Window, cur: Window, x: Row)
    requires Increasing(stitched) && Increasing(cur.rows)
    requires x in stitched && x.day <= prev.end
    ensures x in Step(stitched, prev, cur)
  {
  }

  predicate WellFormed(ws: seq<Window>)
  {
    forall i :: 0 <= i < |ws| ==> Increasing(ws[i].rows)
  }

  /** The stitched series after the first `k` windows. */
  function StitchPrefix(ws: seq<Window>, k: nat): (r: Series)
    requires WellFormed(ws) && 1 <= k <= |ws|
    ensures Increasing(r)
  {
    if k == 1 then ws[0].rows else Step(StitchPrefix(ws, k - 1), ws[k - 2], ws[k - 1])
  }

  /** Every window lies within its bounds, and each window ends no earlier than the one before it. */
  predicate EndsInOrder(ws: seq<Window>)
  {
    && (forall i :: 0 <= i < |ws| ==> Bounded(ws[i]))
    && (forall i :: 0 < i < |ws| ==> ws[i - 1].end <= ws[i].end)
  }

  /**
   * The loop as written (lines 24-38), on an index it does not re-sort: the first window, then
   * each tail appended by `pd.concat`, with every `loc` slice taken on the index built so far.
   */
  function Concatenated(ws: seq<Window>, k: nat): Series
    requires WellFormed(ws) && 1 <= k <= |ws|
  {
    if k == 1 then ws[0].rows
    else
      var s := Concatenated(ws, k - 1);
      s + Tail(s, ws[k - 2], ws[k - 1])
  }

  /** With ends in order, the stitched rows after `k` windows end by the end of window `k - 1`. */
  lemma {:induction false} StitchPrefixWithin(ws: seq<Window>, k: nat)
    requires WellFormed(ws) && EndsInOrder(ws) && 1 <= k <= |ws|
    ensures forall x :: x in StitchPrefix(ws, k) ==> x.day <= ws[k - 1].end
  {
    if k > 1 {
      StitchPrefixWithin(ws, k - 1);
      var s := StitchPrefix(ws, k - 1);
      var cur := ws[k - 1];
      var t := Tail(s, ws[k - 2], cur);
      assert Bounded(cur);
      forall x | x in StitchPrefix(ws, k) ensures x.day <= cur.end {
        if x in t {
          DaysMember(t, x);
          var j :| 0 <= j < |cur.rows| && cur.rows[j].day == x.day;
          assert cur.rows[j] in cur.rows;
        }
      }
    }
  }

  /**
   * With every window within its bounds and the ends in file order, each tail starts after
   * everything stitched so far: `duplicated` finds nothing, the index is sorted after every pass,
   * and the model's merge is exactly the source's concatenation.
   */
  lemma {:induction false} StitchPrefixAppends(ws: seq<Window>, k: nat)
    requires WellFormed(ws) && EndsInOrder(ws) && 1 <= k <= |ws|
    ensures StitchPrefix(ws, k) == Concatenated(ws, k)
    ensures Increasing(Concatenated(ws, k))
  {
    if k > 1 {
      StitchPrefixAppends(ws, k - 1);
      StitchPrefixWithin(ws, k - 1);
      var s := StitchPrefix(ws, k - 1);
      StepAppends(s, ws[k - 2], ws[k - 1]);
    }
  }

  /** A step on rows that all end by the previous window's end only appends the tail. */
  lemma StepAppends(s: Series, prev: Window, cur: Window)
    requires Increasing(s) && Increasing(cur.rows)
    requires forall x :: x in s ==> x.day <= prev.end
    ensures Step(s, prev, cur) == s + Tail(s, prev, cur)
  {
    var t := Tail(s, prev, cur);
    if s != [] && t != [] {
      assert s[|s| - 1] in s && t[0] in t;
    }
    MergeAppends(s, t);
  }

  /** Window `i` contributes the timestamp `d`: it has `d`, and `d` lies after window `i - 1` ends. */
  predicate Contributes(ws: seq<Window>, i: nat, d: Day)
    requires 1 <= i < |ws|
  {
    d in Days(ws[i].rows) && ws[i - 1].end < d
  }

  /**
   * The stitched timestamps are those of the first window, plus, for every later window, its
   * timestamps after the previous window's end; nothing else.
   */
  lemma {:induction false} StitchDays(ws: seq<Window>, k: nat, d: Day)
    requires WellFormed(ws) && 1 <= k <= |ws|
    ensures d in Days(StitchPrefix(ws, k)) <==>
      d in Days(ws[0].rows) || exists i :: 1 <= i < k && Contributes(ws, i, d)
  {
    if k > 1 {
      var before := StitchPrefix(ws, k - 1);
      assert StitchPrefix(ws, k) == Step(before, ws[k - 2], ws[k - 1]);
      StitchDays(ws, k - 1, d);
      StepDays(before, ws[k - 2], ws[k - 1], d);
      assert Contributes(ws, k - 1, d) == (d in Days(ws[k - 1].rows) && ws[k - 2].end < d);
      ContributesStep(ws, k, d);
    }
  }

  /** A step adds to the stitched timestamps exactly the new window's timestamps after the previous end. */
  lemma StepDays(s: Series, prev: Window, cur: Window, d: Day)
    requires Increasing(s) && Increasing(cur.rows)
    ensures d in Days(Step(s, prev, cur)) <==> d in Days(s) || (d in Days(cur.rows) && prev.end < d)
  {
    MergeDays(s, Tail(s, prev, cur));
  }

  /** Some window before `k` contributes `d` exactly when one before `k - 1` or window `k - 1` does. */
  lemma ContributesStep(ws: seq<Window>, k: nat, d: Day)
    requires 2 <= k <= |ws|
    ensures (exists i :: 1 <= i < k && Contributes(ws, i, d)) <==>
      (exists i :: 1 <= i < k - 1 && Contributes(ws, i, d)) || Contributes(ws, k - 1, d)
  {
    if exists i :: 1 <= i < k && Contributes(ws, i, d) {
      var i :| 1 <= i < k && Contributes(ws, i, d);
      if i < k - 1 {
        assert 1 <= i < k - 1 && Contributes(ws, i, d);
      }
    }
  }

  /**
   * The seed survives: when the first window lies within its bounds and no later window ends
   * before it (file names carry the window dates, so ends grow), every row of the first window is
   * in the stitched series with its original value.
   */
  lemma {:induction false} SeedKept(ws: seq<Window>, k: nat)
    requires WellFormed(ws) && 1 <= k <= |ws|
    requires Bounded(ws[0])
    requires forall i :: 0 <= i < k - 1 ==> ws[0].end <= ws[i].end
    ensures forall x :: x in ws[0].rows ==> x in StitchPrefix(ws, k)
  {
    if k > 1 {
      SeedKept(ws, k - 1);
      forall x | x in ws[0].rows ensures x in StitchPrefix(ws, k) {
        StepKeeps(StitchPrefix(ws, k - 1), ws[k - 2], ws[k - 1], x);
      }
    }
  }

  /** A window read from a file: its bounds are its first and last timestamps (lines 18-21). */
  function FileWindow(rows: Series): (w: Window)
    requires rows != []
    ensures Increasing(rows) ==> Bounded(w)
  {
    var w := Window(rows, rows[0].day, rows[|rows| - 1].day);
    assert Increasing(rows) ==> forall x :: x in rows ==> w.start <= x.day <= w.end;
    w
  }

  /**
   * The windows of a folder, in the given order of file names: window `i` holds the rows of file
   * `names[i]` and runs from its first timestamp to its last.
   */
  function Windows(dir: map<string, Series>, names: seq<string>): (ws: seq<Window>)
    requires forall i :: 0 <= i < |names| ==> names[i] in dir && dir[names[i]] != []
    ensures |ws| == |names|
    ensures forall i :: 0 <= i < |ws| ==>
      ws[i].rows == dir[names[i]] && ws[i].start == dir[names[i]][0].day && ws[i].end == dir[names[i]][|dir[names[i]]| - 1].day
  {
    seq(|names|, i requires 0 <= i < |names| => FileWindow(dir[names[i]]))
  }

  /** The windows of files in name order end in order, when no later name ends earlier. */
  lemma WindowsInOrder(dir: map<string, Series>, names: seq<string>)
    requires forall i :: 0 <= i < |names| ==> names[i] in dir && dir[names[i]] != []
    requires forall f :: f in dir ==> Increasing(dir[f])
    requires forall f, g :: f in dir && g in dir && dir[f] != [] && dir[g] != [] && StringOrder.Le(f, g) ==>
      dir[f][|dir[f]| - 1].day <= dir[g][|dir[g]| - 1].day
    requires StringOrder.Sorted(names)
    ensures WellFormed(Windows(dir, names)) && EndsInOrder(Windows(dir, names))
  {
    var ws := Windows(dir, names);
    forall i | 0 < i < |ws| ensures ws[i - 1].end <= ws[i].end {
      assert StringOrder.Le(names[i - 1], names[i]);
    }
  }

  datatype Outcome = NoFiles | Crashed | Written(series: Series)

  /** Lines 16-21: each file's window, in name order; an empty file makes `df.index[0]` raise. */
  method Collect(dir: map<string, Series>, files: seq<string>) returns (collected: Option<seq<Window>>)
    requires forall i :: 0 <= i < |files| ==> files[i] in dir
    ensures collected.None? ==> exists i :: 0 <= i < |files| && dir[files[i]] == []
    ensures collected.Some? ==>
      && (forall i :: 0 <= i < |files| ==> dir[files[i]] != [])
      && collected.value == Windows(dir, files)
  {
    var ws: seq<Window> := [];
    for i := 0 to |files|
      invariant |ws| == i
      invariant forall j :: 0 <= j < i ==> dir[files[j]] != [] && ws[j] == FileWindow(dir[files[j]])
    {
      var df := dir[files[i]];
      if df == [] {
        return None;
      }
      ws := ws + [Window(df, df[0].day, df[|df| - 1].day)];
    }
    return Some(ws);
  }

  /** Lines 24-39: the stitching loop over the windows, from the first one on. */
  method StitchAll(ws: seq<Window>) returns (stitched: Series)
    requires WellFormed(ws) && ws != []
    ensures stitched == StitchPrefix(ws, |ws|)
  {
    stitched := ws[0].rows;
    for i := 1 to |ws|
      invariant stitched == StitchPrefix(ws, i)
    {
      stitched := Step(stitched, ws[i - 1], ws[i]);
    }
  }

  /**
   * `stitch_keyword`: the `.csv` files of a keyword's window folder, by name, become the stitched
   * series written to `<safe_kw>_weekly.csv`. An empty folder gives no output; an empty file makes
   * `df.index[0]` raise. `names` is the file-name order the stitcher follows. Window files carry
   * their dates in their names, so a later name never ends earlier; on such a folder the sorted
   * merge of every pass is the source's plain concatenation.
   */
  method StitchKeyword(dir: map<string, Series>) returns (out: Outcome, ghost names: seq<string>)
    requires forall f :: f in dir ==> Increasing(dir[f])
    requires forall f, g :: f in dir && g in dir && dir[f] != [] && dir[g] != [] && StringOrder.Le(f, g) ==>
      dir[f][|dir[f]| - 1].day <= dir[g][|dir[g]| - 1].day
    ensures StringOrder.Sorted(names) && StringOrder.Distinct(names)
    ensures forall f :: f in names <==> f in dir
    ensures out == NoFiles <==> dir == map[]
    ensures out == Crashed <==> exists f :: f in dir && dir[f] == []
    ensures out.Written? ==>
      && (forall i :: 0 <= i < |names| ==> dir[names[i]] != [])
      && out.series == StitchPrefix(Windows(dir, names), |names|)
      && out.series == Concatenated(Windows(dir, names), |names|)
      && Increasing(out.series)
  {
    var files := StringOrder.SortedSet(dir.Keys);
    names := files;
    if |files| == 0 {
      assert dir.Keys == {};
      out := NoFiles;
      return;
    }
    var collected := Collect(dir, files);
    if collected.None? {
      out := Crashed;
      return;
    }
    var ws := collected.value;
    WindowsInOrder(dir, files);
    var stitched := StitchAll(ws);
    StitchPrefixAppends(ws, |ws|);
    out := Written(stitched);
    forall f | f in dir ensures dir[f] != [] {
      var j :| 0 <= j < |files| && files[j] == f;
    }
  }
}

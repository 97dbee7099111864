/**
 * The per-keyword weekly fetcher, `script_weekly/fetch_weekly_one_keyword.py`. A run pops a
 * keyword, plans 90-day windows every 30 days from 2015-01-01 up to today, fetches them one after
 * the other (the first failure moves the keyword to `failed` and ends the run), stitches them by
 * plain concatenation with median rescaling, writes the result and moves the keyword to
 * `processed`.
 */
module WeeklyKeyword {
  import opened Wrappers
  import opened Seqs
  import opened Calendar
  import opened Series
  import opened Provider
  import opened Lines
  import opened Queue
  import StitchWeekly

  const WindowDays := 90
  const StepDays := 30
  const MaxRetries := 5
  const Backoff := 60

  /** The planned bounds of one window: `(start, end)`. */
  datatype Span = Span(start: Day, end: Day)

  /** How many windows fit before `now`: each one 90 days long, starting 30 days after the last. */
  function WindowCount(now: Day): nat
  {
    var first := JanFirst(StartYear);
    if now < first + WindowDays then 0 else (now - first - WindowDays) / StepDays + 1
  }

  /** The count is the one number of windows whose last ends by `now` while the next would not. */
  lemma WindowCountUnique(now: Day, n: nat)
    requires var first := JanFirst(StartYear);
      && (n == 0 || first + StepDays * (n - 1) + WindowDays <= now)
      && now < first + StepDays * n + WindowDays
    ensures n == WindowCount(now)
  {
    var first := JanFirst(StartYear);
    if n > 0 {
      var m := now - first - WindowDays;
      assert StepDays * (n - 1) <= m < StepDays * (n - 1) + StepDays;
      assert m / StepDays == n - 1;
    }
  }

  /** The window list `compute_windows` returns for the day `now`. */
  predicate Planned(ws: seq<Span>, now: Day)
  {
    var first := JanFirst(StartYear);
    && |ws| == WindowCount(now)
    && forall i :: 0 <= i < |ws| ==> ws[i] == Span(first + StepDays * i, first + StepDays * i + WindowDays)
  }

  /**
   * `compute_windows` (lines 99-107): 90-day windows from 2015-01-01, each starting 30 days after
   * the previous one, while the window ends by `now` (the day of `utcnow()`; a window ending at
   * midnight of that day still fits).
   */
  method PlanWindows(now: Day) returns (ws: seq<Span>)
    ensures Planned(ws, now)
  {
    var first := JanFirst(StartYear);
    ws := [];
    var cur := first;
    while cur + WindowDays <= now
      invariant cur == first + StepDays * |ws|
      invariant |ws| == 0 || first + StepDays * (|ws| - 1) + WindowDays <= now
      invariant forall i :: 0 <= i < |ws| ==> ws[i] == Span(first + StepDays * i, first + StepDays * i + WindowDays)
      decreases now - cur
    {
      ws := ws + [Span(cur, cur + WindowDays)];
      cur := cur + StepDays;
    }
    WindowCountUnique(now, |ws|);
  }

  /**
   * Every planned window ends by `now`, the next one would not, and neighbours overlap by 60
   * days; the first starts on 2015-01-01.
   */
  lemma PlannedSpec(ws: seq<Span>, now: Day)
    requires Planned(ws, now)
    ensures forall i :: 0 <= i < |ws| ==> ws[i].end - ws[i].start == WindowDays && ws[i].end <= now
    ensures |ws| > 0 ==> ws[0].start == JanFirst(StartYear)
    ensures forall i :: 0 < i < |ws| ==> ws[i].start - ws[i - 1].start == StepDays
    ensures forall i :: 0 < i < |ws| ==> ws[i - 1].end - ws[i].start == WindowDays - StepDays
    ensures JanFirst(StartYear) + StepDays * |ws| + WindowDays > now
  {
    var first := JanFirst(StartYear);
    var n := |ws|;
    if n > 0 {
      var m := now - first - WindowDays;
      assert m >= 0;
      assert n - 1 == m / StepDays;
      forall i | 0 <= i < n ensures ws[i].end <= now {
        assert StepDays * i <= StepDays * (n - 1);
      }
    }
  }

  /** `fetch_window`'s answer once an attempt returns a frame: no frame when it is empty. */
  function Answer(rows: Series): Option<Series>
  {
    if rows == [] then None else Some(rows)
  }

  /**
   * `fetch_window` (lines 79-96): up to five attempts. A frame ends the loop (an empty one as
   * `None`); a raised attempt sleeps 60 seconds times its number, except the fifth, which gives
   * `None`. `sleeps` are the sleeps taken, in order.
   */
  method FetchWindow(answers: seq<Response>) returns (df: Option<Series>, sleeps: seq<nat>)
    requires |answers| == MaxRetries
    ensures var k := FirstOk(answers, Answered);
      && (k < MaxRetries ==> df == Answer(answers[k].rows) && |sleeps| == k)
      && (k == MaxRetries ==> df == None && |sleeps| == MaxRetries - 1)
    ensures forall i :: 0 <= i < |sleeps| ==> sleeps[i] == Backoff * (i + 1)
  {
    var k := FirstOk(answers, Answered);
    sleeps := [];
    var attempt := 1;
    // The loop always returns by the fifth attempt: the `return None` after it is never reached.
    while true
      invariant 1 <= attempt <= MaxRetries
      invariant attempt - 1 <= k
      invariant |sleeps| == attempt - 1
      invariant forall i :: 0 <= i < |sleeps| ==> sleeps[i] == Backoff * (i + 1)
      decreases MaxRetries - attempt
    {
      match answers[attempt - 1]
      case Frame(rows) =>
        return Answer(rows), sleeps;
      case Raised(_) =>
        if attempt == MaxRetries {
          return None, sleeps;
        }
        sleeps := sleeps + [Backoff * attempt];
      attempt := attempt + 1;
    }
  }

  /** What a window's overlap with the stitched series does to the window's values. */
  datatype ScaleChoice = Unscaled | By(c: real) | NanScale

  /**
   * The guard of lines 133-137, from the row counts of the two overlap slices and their present
   * values: both slices must have rows and the new median must be positive. An old overlap with
   * rows but no present value has a NaN median, and so does the scale.
   */
  function ScaleFor(oldRows: nat, newRows: nat, po: seq<real>, pn: seq<real>): ScaleChoice
  {
    if oldRows > 0 && newRows > 0 && |pn| > 0 && Median(pn) > 0.0 then
      if |po| > 0 then By(Median(po) / Median(pn)) else NanScale
    else Unscaled
  }

  /** A real scale makes the new overlap's median equal to the old one's. */
  lemma ScaleForAligns(oldRows: nat, newRows: nat, po: seq<real>, pn: seq<real>, c: real)
    requires ScaleFor(oldRows, newRows, po, pn) == By(c)
    requires Median(po) >= 0.0
    ensures Median(ScaleReals(pn, c)) == Median(po)
  {
    MedianAligned(po, pn, c);
  }

  /** `df * scale` for the three outcomes of the guard. */
  function Rescaled(rows: Series, choice: ScaleChoice): (r: Series)
    ensures SameDays(rows, r)
    ensures choice == NanScale ==> forall i :: 0 <= i < |r| ==> r[i].val == None
    ensures choice == Unscaled ==> r == rows
  {
    match choice
    case Unscaled => rows
    case By(c) => ScaleRows(rows, c)
    case NanScale => Blanked(rows)
  }

  /** The guard's outcome for a window against the series stitched so far. */
  function Choice(stitched: Series, prev: Window, cur: Window): ScaleChoice
  {
    var lo, hi := StitchWeekly.OverlapStart(prev, cur), StitchWeekly.OverlapEnd(prev, cur);
    var ov, nv := Slice(stitched, lo, hi), Slice(cur.rows, lo, hi);
    ScaleFor(|ov|, |nv|, Present(ov), Present(nv))
  }

  /**
   * One iteration of `stitch_windows` (lines 122-141): the window, rescaled, contributes its rows
   * after the previous window's planned end, appended with no deduplication. The stitched rows
   * stay as they were, and every appended row is a row of the window with a day past `prev.end`.
   */
  function ConcatStep(stitched: Series, prev: Window, cur: Window): (r: Series)
    ensures |r| >= |stitched| && r[..|stitched|] == stitched
    ensures forall x :: x in r[|stitched|..] ==> prev.end < x.day && x.day in Days(cur.rows)
    ensures Choice(stitched, prev, cur) == NanScale ==> forall x :: x in r[|stitched|..] ==> x.val == None
  {
    var tail := StepTail(stitched, prev, cur);
    AppendParts(stitched, tail);
    stitched + tail
  }

  /** The rows one iteration appends: the rescaled window from the day after `prev.end` on. */
  function StepTail(stitched: Series, prev: Window, cur: Window): (t: Series)
    ensures forall x :: x in t ==> prev.end < x.day && x.day in Days(cur.rows)
    ensures Choice(stitched, prev, cur) == NanScale ==> forall x :: x in t ==> x.val == None
    ensures Increasing(cur.rows) ==> Increasing(t)
  {
    var scaled := Rescaled(cur.rows, Choice(stitched, prev, cur));
    assert Increasing(cur.rows) ==> Increasing(scaled) by {
      if Increasing(cur.rows) {
        SameDaysIncreasing(cur.rows, scaled);
      }
    }
    var tail := From(scaled, prev.end + 1);
    forall x | x in tail ensures x.day in Days(cur.rows) {
      var i :| 0 <= i < |scaled| && scaled[i] == x;
      assert cur.rows[i].day == x.day;
    }
    tail
  }

  /** The series after the first `k` windows. */
  function ConcatPrefix(ws: seq<Window>, k: nat): Series
    requires 1 <= k <= |ws|
  {
    if k == 1 then ws[0].rows else ConcatStep(ConcatPrefix(ws, k - 1), ws[k - 2], ws[k - 1])
  }

  /** The seed is a copy of the first window, and later steps only append: it is never changed. */
  lemma {:induction false} ConcatSeed(ws: seq<Window>, k: nat)
    requires 1 <= k <= |ws|
    ensures |ConcatPrefix(ws, k)| >= |ws[0].rows|
    ensures ConcatPrefix(ws, k)[..|ws[0].rows|] == ws[0].rows
  {
    if k > 1 {
      ConcatSeed(ws, k - 1);
      var s := ConcatPrefix(ws, k - 1);
      var r := ConcatPrefix(ws, k);
      assert r[..|s|] == s;
      assert r[..|ws[0].rows|] == s[..|ws[0].rows|];
    }
  }

  /** Windows as the fetcher collects them: sorted within, inside their planned bounds, ends growing. */
  predicate Collected(ws: seq<Window>)
  {
    && (forall i :: 0 <= i < |ws| ==> Increasing(ws[i].rows) && Bounded(ws[i]))
    && (forall i :: 0 < i < |ws| ==> ws[i - 1].end <= ws[i].end)
  }

  lemma IncreasingConcat(a: Series, b: Series)
    requires Increasing(a) && Increasing(b)
    requires forall x, y :: x in a && y in b ==> x.day < y.day
    ensures Increasing(a + b)
  {
    var r := a + b;
    forall i, j | 0 <= i < j < |r| ensures r[i].day < r[j].day {
      if j >= |a| && i < |a| {
        assert r[i] in a && r[j] in b;
      } else if i >= |a| {
        assert r[i] == b[i - |a|] && r[j] == b[j - |a|];
      }
    }
  }

  /** One step keeps the series increasing and within the current window's end. */
  lemma ConcatStepIncreasing(s: Series, prev: Window, cur: Window)
    requires Increasing(s) && forall x :: x in s ==> x.day <= prev.end
    requires Increasing(cur.rows) && Bounded(cur) && prev.end <= cur.end
    ensures Increasing(ConcatStep(s, prev, cur))
    ensures forall x :: x in ConcatStep(s, prev, cur) ==> x.day <= cur.end
  {
    var tail := StepTail(s, prev, cur);
    forall x | x in tail ensures x.day <= cur.end {
      var i :| 0 <= i < |cur.rows| && cur.rows[i].day == x.day;
      assert cur.rows[i] in cur.rows;
    }
    IncreasingConcat(s, tail);
  }

  /**
   * Without deduplication the result still has strictly increasing timestamps, because each
   * appended tail starts after the previous window's end and everything stitched so far lies at
   * or before it.
   */
  lemma {:induction false} ConcatIncreasing(ws: seq<Window>, k: nat)
    requires Collected(ws) && 1 <= k <= |ws|
    ensures Increasing(ConcatPrefix(ws, k))
    ensures forall x :: x in ConcatPrefix(ws, k) ==> x.day <= ws[k - 1].end
  {
    if k > 1 {
      ConcatIncreasing(ws, k - 1);
      ConcatStepIncreasing(ConcatPrefix(ws, k - 1), ws[k - 2], ws[k - 1]);
    }
  }

  /** Every stitched timestamp comes from one of the windows. */
  lemma {:induction false} ConcatDays(ws: seq<Window>, k: nat)
    requires 1 <= k <= |ws|
    ensures forall x :: x in ConcatPrefix(ws, k) ==> exists i :: 0 <= i < k && x.day in Days(ws[i].rows)
  {
    if k > 1 {
      ConcatDays(ws, k - 1);
      var s := ConcatPrefix(ws, k - 1);
      var r := ConcatPrefix(ws, k);
      forall x | x in r ensures exists i :: 0 <= i < k && x.day in Days(ws[i].rows) {
        var j :| 0 <= j < |r| && r[j] == x;
        if j < |s| {
          assert x == r[..|s|][j] == s[j];
          assert x in s;
        } else {
          assert x == r[|s|..][j - |s|];
          assert x.day in Days(ws[k - 1].rows);
        }
      }
    } else {
      forall x | x in ws[0].rows ensures x.day in Days(ws[0].rows) {
        DaysMember(ws[0].rows, x);
      }
    }
  }

  /**
   * `stitch_windows` (lines 112-143): nothing for an empty list; otherwise the first window,
   * copied, with every later window concatenated in turn.
   */
  method StitchWindows(ws: seq<Window>) returns (r: Option<Series>)
    ensures r.None? <==> ws == []
    ensures r.Some? ==> r.value == ConcatPrefix(ws, |ws|)
  {
    if |ws| == 0 {
      return None;
    }
    var stitched := ws[0].rows;
    for i := 1 to |ws|
      invariant stitched == ConcatPrefix(ws, i)
    {
      stitched := ConcatStep(stitched, ws[i - 1], ws[i]);
    }
    r := Some(stitched);
  }

  /** The window `fetch_window` returns for these answers: the first frame, if it came and is not empty. */
  predicate FetchGives(rs: seq<Response>, rows: Series)
    requires |rs| == MaxRetries
  {
    var k := FirstOk(rs, Answered);
    k < MaxRetries && rs[k].rows == rows && rows != []
  }

  /** `fetch_window` returns `None`: every attempt raised, or the first frame was empty. */
  predicate FetchFails(rs: seq<Response>)
    requires |rs| == MaxRetries
  {
    var k := FirstOk(rs, Answered);
    k == MaxRetries || Empty(rs[k])
  }

  /** A fetch either fails or gives exactly one window. */
  lemma FetchOutcomes(rs: seq<Response>)
    requires |rs| == MaxRetries
    ensures FetchFails(rs) <==> forall rows :: !FetchGives(rs, rows)
  {
    var k := FirstOk(rs, Answered);
    if !FetchFails(rs) {
      assert FetchGives(rs, rs[k].rows);
    }
  }

  /**
   * The window loop of `main` (lines 169-179): the planned windows are fetched in order and each
   * one is kept with its planned bounds; the first failure stops the loop.
   */
  method FetchAll(plan: seq<Span>, answers: seq<seq<Response>>) returns (saved: seq<Window>, failedAt: Option<nat>)
    requires |answers| == |plan|
    requires forall i :: 0 <= i < |answers| ==> |answers[i]| == MaxRetries
    ensures failedAt.None? ==> |saved| == |plan|
    ensures failedAt.Some? ==> failedAt.value == |saved| < |plan| && FetchFails(answers[|saved|])
    ensures forall i :: 0 <= i < |saved| ==>
      saved[i].start == plan[i].start && saved[i].end == plan[i].end && FetchGives(answers[i], saved[i].rows)
  {
    saved := [];
    for i := 0 to |plan|
      invariant |saved| == i
      invariant forall j :: 0 <= j < i ==>
        saved[j].start == plan[j].start && saved[j].end == plan[j].end && FetchGives(answers[j], saved[j].rows)
    {
      var df, _ := FetchWindow(answers[i]);
      if df.None? {
        return saved, Some(i);
      }
      saved := saved + [Window(df.value, plan[i].start, plan[i].end)];
    }
    failedAt := None;
  }

  /**
   * Planned windows whose fetched rows are sorted and lie within the planned bounds are what
   * `ConcatIncreasing` needs: their ends grow by 30 days.
   */
  lemma PlannedCollected(plan: seq<Span>, now: Day, saved: seq<Window>)
    requires Planned(plan, now) && |saved| <= |plan|
    requires forall i :: 0 <= i < |saved| ==> saved[i].start == plan[i].start && saved[i].end == plan[i].end
    requires forall i :: 0 <= i < |saved| ==> Increasing(saved[i].rows) && Bounded(saved[i])
    ensures Collected(saved)
  {
    forall i | 0 < i < |saved| ensures saved[i - 1].end <= saved[i].end {
      assert plan[i - 1].end < plan[i].end;
    }
  }

  /** How a run ends. */
  datatype Outcome =
    | NoKeyword
    | WindowFailed(at: nat)
    | NothingToStitch
    | Written(series: Series)

  /**
   * `main` (lines 148-193). `now` is today's day number and `answers[i]` are the provider's
   * answers to the attempts for the `i`-th planned window. The windows fetched before a failure
   * stay on disk (`saved`); a failure moves the keyword to `failed`, and so does an empty plan,
   * which leaves nothing to stitch; otherwise the stitched series is written and the keyword
   * moves to `processed`.
   */
  method Run(q: KeywordFiles, now: Day, answers: seq<seq<Response>>)
    returns (kw: Option<string>, out: Outcome, saved: seq<Window>)
    requires |answers| == WindowCount(now)
    requires forall i :: 0 <= i < |answers| ==> |answers[i]| == MaxRetries
    modifies q
    ensures var read := NonBlankStripped(Contents(old(q.unprocessed)));
      && (read == [] <==> out == NoKeyword)
      && (read == [] ==> (
        && kw == None && q.unprocessed == old(q.unprocessed) && q.processing == old(q.processing)
        && q.processed == old(q.processed) && q.failed == old(q.failed)))
      && (read != [] ==> (
        && kw == Some(read[0]) && q.unprocessed == Some(read[1..])
        && q.processing == Some(StrippedExcept(Contents(old(q.processing)), read[0]))))
    ensures (out.WindowFailed? || out == NothingToStitch) ==>
      (kw.Some? && q.failed == Appended(old(q.failed), kw.value) && q.processed == old(q.processed))
    ensures out.Written? ==>
      (kw.Some? && q.processed == Appended(old(q.processed), kw.value) && q.failed == old(q.failed))
    ensures out != NoKeyword ==> Fetched(now, answers, out, saved)
  {
    saved := [];
    kw := q.PopKeyword();
    if kw.None? {
      return kw, NoKeyword, saved;
    }
    var k := kw.value;
    NonBlankStrippedHeadClean(Contents(old(q.unprocessed)));
    q.MarkProcessing(k);
    SaveStatusMoveUndoesMark(Contents(old(q.processing)), k);
    out, saved := FetchAndStitch(now, answers);
    assert Fetched(now, answers, out, saved);
    if out.Written? {
      q.SaveStatusMove(k, Processed);
    } else {
      q.SaveStatusMove(k, Failed);
    }
  }

  /** What the data part of `main` leaves: the outcome and the saved windows of `FetchAndStitch`. */
  ghost predicate Fetched(now: Day, answers: seq<seq<Response>>, out: Outcome, saved: seq<Window>)
    requires forall i :: 0 <= i < |answers| ==> |answers[i]| == MaxRetries
  {
    && (out == NothingToStitch ==> WindowCount(now) == 0)
    && (out.WindowFailed? ==> out.at == |saved| < |answers| && FetchFails(answers[out.at]))
    && (out.Written? ==> |saved| == |answers| > 0 && out.series == ConcatPrefix(saved, |saved|))
    && |saved| <= |answers|
    && forall i :: 0 <= i < |saved| ==> (
      && saved[i].start == JanFirst(StartYear) + StepDays * i && saved[i].end == saved[i].start + WindowDays
      && FetchGives(answers[i], saved[i].rows))
  }

  /**
   * The data part of `main` (lines 159-186): the planned windows are fetched in order until one
   * fails; with none failing, the saved windows are stitched.
   */
  method FetchAndStitch(now: Day, answers: seq<seq<Response>>) returns (out: Outcome, saved: seq<Window>)
    requires |answers| == WindowCount(now)
    requires forall i :: 0 <= i < |answers| ==> |answers[i]| == MaxRetries
    ensures out != NoKeyword
    ensures out == NothingToStitch ==> WindowCount(now) == 0
    ensures out.WindowFailed? ==> out.at == |saved| < |answers| && FetchFails(answers[out.at])
    ensures out.Written? ==> |saved| == |answers| > 0 && out.series == ConcatPrefix(saved, |saved|)
    ensures |saved| <= |answers|
    ensures forall i :: 0 <= i < |saved| ==> (
      && saved[i].start == JanFirst(StartYear) + StepDays * i && saved[i].end == saved[i].start + WindowDays
      && FetchGives(answers[i], saved[i].rows))
  {
    var plan := PlanWindows(now);
    var failedAt;
    saved, failedAt := FetchAll(plan, answers);
    if failedAt.Some? {
      return WindowFailed(failedAt.value), saved;
    }
    var stitched := StitchWindows(saved);
    if stitched.None? {
      return NothingToStitch, saved;
    }
    out := Written(stitched.value);
  }
}

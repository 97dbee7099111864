/**
 * The one-window weekly fetcher, `script_weekly/fetch_weekly_one_window.py`. A run pops a line
 * off the weekly queue, plans five-year windows every four years from 2015-01-01 up to yesterday
 * (plus a shorter last window), fetches only the first of them on a weekly Sunday grid, and
 * saves it. The final move to `processed` names a path that is never defined, so the run ends in
 * an error that the top-level handler swallows: the keyword stays in `processing`.
 */
module WeeklyWindow {
  import opened Wrappers
  import opened Calendar
  import opened Series
  import opened Provider
  import opened Lines
  import opened Queue
  import opened Naming
  import opened Text

  const WindowYears := 5
  const StepYears := 4
  const MaxRetries := 5
  const Backoff := 20

  /** The planned bounds of one window: `(start, end)`. */
  datatype Span = Span(start: Day, end: Day)

  // ---------------------------------------------------------------------------------------
  // The weekly grid

  /** `pd.date_range(start_adj, end_adj, freq="W-SUN")` for a window, after snapping its ends to Sundays. */
  function FrameGrid(start: Day, end: Day): seq<Day>
  {
    WeeklyGrid(SundayOnOrBefore(start), SundayOnOrAfter(end))
  }

  /** `df.reindex(grid)`: one row per grid day, with the frame's value there or NaN. */
  function Reindexed(rows: Series, grid: seq<Day>): (r: Series)
    ensures |r| == |grid|
    ensures forall i :: 0 <= i < |r| ==> r[i].day == grid[i]
  {
    seq(|grid|, i requires 0 <= i < |grid| => Row(grid[i], Lookup(rows, grid[i])))
  }

  /**
   * The reindexed frame is the window's Sunday grid, in order and covering every Sunday from the
   * snapped start to the snapped end; a value is present only where the frame had a row on that
   * day, and when the frame's days are distinct every row on a grid day keeps its value.
   */
  lemma ReindexedSpec(rows: Series, start: Day, end: Day)
    ensures var r := Reindexed(rows, FrameGrid(start, end));
      var a, b := SundayOnOrBefore(start), SundayOnOrAfter(end);
      && Increasing(r)
      && (forall i :: 0 <= i < |r| ==> a <= r[i].day <= b && Weekday(r[i].day) == Sunday)
      && (forall x :: a <= x <= b && Weekday(x) == Sunday ==> x in Days(r))
      && (forall i :: 0 <= i < |r| && r[i].val.Some? ==> Row(r[i].day, r[i].val) in rows)
      && (UniqueDays(rows) ==> forall i, x :: 0 <= i < |r| && x in rows && x.day == r[i].day ==> r[i].val == x.val)
      && (rows == [] ==> forall i :: 0 <= i < |r| ==> r[i].val == None)
  {
    var g := FrameGrid(start, end);
    var r := Reindexed(rows, g);
    var a, b := SundayOnOrBefore(start), SundayOnOrAfter(end);
    WeeklyGridSpec(a, b);
    forall x | a <= x <= b && Weekday(x) == Sunday ensures x in Days(r) {
      var i :| 0 <= i < |g| && g[i] == x;
      DaysMember(r, r[i]);
    }
  }

  // ---------------------------------------------------------------------------------------
  // Fetching one window

  /**
   * An attempt that ends the retry loop: a frame whose index `reindex` accepts. A frame with a
   * repeated timestamp makes `reindex` raise, which counts as a failed attempt; an empty frame
   * has no timestamps at all.
   */
  predicate Accepted(r: Response)
  {
    r.Frame? && UniqueDays(r.rows)
  }

  /** The rows of the first accepted answer, or none when every attempt failed. */
  function FetchedRows(answers: seq<Response>): Series
  {
    var k := FirstOk(answers, Accepted);
    if k < |answers| then answers[k].rows else []
  }

  /**
   * `fetch_window` (lines 81-107): up to five attempts; the first accepted frame is reindexed
   * onto the window's Sunday grid (an empty frame gives the all-NaN grid, lines 94-96); every failed attempt
   * sleeps 20 seconds times its number, the fifth included; five failures give the all-NaN grid.
   */
  method FetchGridWindow(start: Day, end: Day, answers: seq<Response>) returns (df: Series, sleeps: seq<nat>)
    requires |answers| == MaxRetries
    ensures df == Reindexed(FetchedRows(answers), FrameGrid(start, end))
    ensures |sleeps| == FirstOk(answers, Accepted)
    ensures forall i :: 0 <= i < |sleeps| ==> sleeps[i] == Backoff * (i + 1)
  {
    var grid := FrameGrid(start, end);
    sleeps := [];
    for attempt := 1 to MaxRetries + 1
      invariant |sleeps| == attempt - 1 <= FirstOk(answers, Accepted)
      invariant forall i :: 0 <= i < |sleeps| ==> sleeps[i] == Backoff * (i + 1)
    {
      match answers[attempt - 1]
      case Frame(rows) =>
        if rows == [] {
          return Reindexed([], grid), sleeps;
        }
        if UniqueDays(rows) {
          return Reindexed(rows, grid), sleeps;
        }
        sleeps := sleeps + [Backoff * attempt];
      case Raised(_) =>
        sleeps := sleeps + [Backoff * attempt];
    }
    df := Reindexed([], grid);
  }

  // ---------------------------------------------------------------------------------------
  // Planning the windows

  /** The year the `i`-th full window starts in. */
  function YearOf(i: nat): int
  {
    StartYear + StepYears * i
  }

  /** The `i`-th full window: Jan 1 of its year to Jan 1 five years later. */
  function FullWindow(i: nat): Span
  {
    Span(JanFirst(YearOf(i)), JanFirst(YearOf(i) + WindowYears))
  }

  /** A full window is at least five times 365 days long; the next one starts at least 4 times 365 days later. */
  lemma FullWindowGrows(i: nat)
    ensures FullWindow(i).start + 365 * WindowYears <= FullWindow(i).end
    ensures FullWindow(i).start + 365 * StepYears <= FullWindow(i + 1).start
  {
    JanFirstGrows(YearOf(i), WindowYears);
    JanFirstGrows(YearOf(i), StepYears);
    assert YearOf(i + 1) == YearOf(i) + StepYears;
  }

  /** How many full windows, from the `i`-th on, end by `nowDay`. */
  function FullFrom(i: nat, nowDay: Day): nat
    decreases nowDay - FullWindow(i).start
  {
    FullWindowGrows(i);
    if FullWindow(i).end <= nowDay then 1 + FullFrom(i + 1, nowDay) else 0
  }

  /** The counted windows all end by `nowDay` and the next one does not. */
  lemma FullFromSpec(i: nat, nowDay: Day)
    ensures forall j :: i <= j < i + FullFrom(i, nowDay) ==> FullWindow(j).end <= nowDay
    ensures FullWindow(i + FullFrom(i, nowDay)).end > nowDay
  {
    FullFromCounted(i, nowDay);
    FullFromNext(i, nowDay);
  }

  /** The counted windows all end by `nowDay`. */
  lemma {:induction false} FullFromCounted(i: nat, nowDay: Day)
    ensures forall j :: i <= j < i + FullFrom(i, nowDay) ==> FullWindow(j).end <= nowDay
    decreases nowDay - FullWindow(i).start
  {
    FullWindowGrows(i);
    if FullWindow(i).end <= nowDay {
      FullFromCounted(i + 1, nowDay);
      var k := FullFrom(i + 1, nowDay);
      assert FullFrom(i, nowDay) == 1 + k;
      forall j | i <= j < i + 1 + k ensures FullWindow(j).end <= nowDay {
        if j > i {
          assert i + 1 <= j < (i + 1) + k;
        }
      }
    }
  }

  /** The window after the counted ones ends after `nowDay`. */
  lemma {:induction false} FullFromNext(i: nat, nowDay: Day)
    ensures FullWindow(i + FullFrom(i, nowDay)).end > nowDay
    decreases nowDay - FullWindow(i).start
  {
    FullWindowGrows(i);
    var n := i + FullFrom(i, nowDay);
    if FullWindow(i).end <= nowDay {
      FullFromNext(i + 1, nowDay);
      assert n == (i + 1) + FullFrom(i + 1, nowDay);
    } else {
      assert n == i;
    }
  }

  /** Counting from window `i`: one more than from window `i + 1` when window `i` ends by `nowDay`, else none. */
  lemma FullFromStep(i: nat, nowDay: Day)
    ensures FullWindow(i) == Span(JanFirst(YearOf(i)), JanFirst(YearOf(i) + WindowYears))
    ensures YearOf(i + 1) == YearOf(i) + StepYears && FullWindow(i).start < FullWindow(i + 1).start
    ensures FullFrom(i, nowDay) == if FullWindow(i).end <= nowDay then 1 + FullFrom(i + 1, nowDay) else 0
  {
    FullWindowGrows(i);
  }

  /** The list `compute_windows` returns when yesterday is `nowDay`. */
  predicate PlannedYearly(ws: seq<Span>, nowDay: Day)
  {
    var n := FullFrom(0, nowDay);
    var tail := FullWindow(n).start;
    && |ws| == n + (if nowDay - tail >= 7 then 1 else 0)
    && (forall i :: 0 <= i < n ==> ws[i] == FullWindow(i))
    && (|ws| > n ==> ws[n] == Span(tail, nowDay))
  }

  /**
   * `compute_windows` (lines 109-118): five-year windows every four years from 2015-01-01 while a
   * window ends by yesterday, then one last window from the next start to yesterday when that is
   * at least a week long. `today` is the day of `utcnow()`; the time of day does not change the
   * outcome, because every window bound but the last is a midnight.
   */
  method PlanYearly(today: Day) returns (ws: seq<Span>)
    ensures PlannedYearly(ws, today - 1)
  {
    var nowDay := today - 1;
    var y;
    ws, y := FullWindows(nowDay);
    if nowDay - JanFirst(y) >= 7 {
      ws := ws + [Span(JanFirst(y), nowDay)];
    }
  }

  /** The loop of `compute_windows` (lines 111-115): the full windows that end by `nowDay`, and the next start year. */
  method FullWindows(nowDay: Day) returns (ws: seq<Span>, y: int)
    ensures |ws| == FullFrom(0, nowDay) && y == YearOf(|ws|)
    ensures forall i :: 0 <= i < |ws| ==> ws[i] == FullWindow(i)
  {
    ws := [];
    y := StartYear;
    while JanFirst(y + WindowYears) <= nowDay
      invariant y == YearOf(|ws|)
      invariant |ws| + FullFrom(|ws|, nowDay) == FullFrom(0, nowDay)
      invariant forall i :: 0 <= i < |ws| ==> ws[i] == FullWindow(i)
      decreases nowDay - JanFirst(y)
    {
      FullFromStep(|ws|, nowDay);
      ws := ws + [Span(JanFirst(y), JanFirst(y + WindowYears))];
      y := y + StepYears;
    }
    FullFromStep(|ws|, nowDay);
  }

  /**
   * The plan is empty exactly when yesterday is less than a week after 2015-01-01; otherwise it
   * starts on 2015-01-01, so the window `main` fetches (always the first) is the same on every
   * run. Every window is at least a week long and ends by yesterday, and each one starts inside
   * the one before it.
   */
  lemma PlannedYearlySpec(ws: seq<Span>, nowDay: Day)
    requires PlannedYearly(ws, nowDay)
    ensures ws == [] <==> nowDay < JanFirst(StartYear) + 7
    ensures ws != [] ==> ws[0].start == JanFirst(StartYear)
    ensures forall i :: 0 <= i < |ws| ==> ws[i].start + 7 <= ws[i].end <= nowDay
    ensures forall i :: 0 < i < |ws| ==> ws[i - 1].start < ws[i].start < ws[i - 1].end
  {
    PlannedFirst(ws, nowDay);
    forall i | 0 <= i < |ws| ensures ws[i].start + 7 <= ws[i].end <= nowDay {
      PlannedBounds(ws, nowDay, i);
    }
    forall i | 0 < i < |ws| ensures ws[i - 1].start < ws[i].start < ws[i - 1].end {
      PlannedOverlap(ws, nowDay, i);
    }
  }

  /** A plan is empty exactly when yesterday is less than a week after 2015-01-01, and starts then otherwise. */
  lemma PlannedFirst(ws: seq<Span>, nowDay: Day)
    requires PlannedYearly(ws, nowDay)
    ensures ws == [] <==> nowDay < JanFirst(StartYear) + 7
    ensures ws != [] ==> ws[0].start == JanFirst(StartYear)
  {
    var n := FullFrom(0, nowDay);
    FullFromSpec(0, nowDay);
    FullWindowGrows(0);
    if n == 0 {
      assert FullWindow(0).start == JanFirst(StartYear);
    } else {
      PlannedAt(ws, nowDay, 0);
      assert FullWindow(0).end <= nowDay;
    }
  }

  /** Every planned window is at least a week long and ends by `nowDay`. */
  lemma PlannedBounds(ws: seq<Span>, nowDay: Day, i: nat)
    requires PlannedYearly(ws, nowDay) && i < |ws|
    ensures ws[i].start + 7 <= ws[i].end <= nowDay
  {
    PlannedAt(ws, nowDay, i);
    if i < FullFrom(0, nowDay) {
      FullFromSpec(0, nowDay);
      FullWindowGrows(i);
      assert FullWindow(i).end <= nowDay;
    }
  }

  /** Each planned window starts inside the one before it. */
  lemma PlannedOverlap(ws: seq<Span>, nowDay: Day, i: nat)
    requires PlannedYearly(ws, nowDay) && 0 < i < |ws|
    ensures ws[i - 1].start < ws[i].start < ws[i - 1].end
  {
    PlannedAt(ws, nowDay, i - 1);
    PlannedAt(ws, nowDay, i);
    WindowsOverlap(i - 1);
  }

  /** Window `i` of a plan: a full window, or the last one, from the next start to `nowDay`. */
  lemma PlannedAt(ws: seq<Span>, nowDay: Day, i: nat)
    requires PlannedYearly(ws, nowDay) && i < |ws|
    ensures var n := FullFrom(0, nowDay);
      && (i < n ==> ws[i] == FullWindow(i))
      && (i >= n ==> i == n && ws[i] == Span(FullWindow(n).start, nowDay) && nowDay - FullWindow(n).start >= 7)
  {
  }

  /** The next full window starts after this one starts and before it ends. */
  lemma WindowsOverlap(i: nat)
    ensures FullWindow(i).start < FullWindow(i + 1).start < FullWindow(i).end
  {
    FullWindowGrows(i);
    var y := YearOf(i + 1);
    assert YearOf(i) + WindowYears == y + 1;
    JanFirstNext(y);
  }

  /**
   * `compute_windows()` and `windows[0]` (lines 131-139): the window a run fetches, none exactly when yesterday is less
   * than a week after 2015-01-01; it starts on 2015-01-01 and ends by yesterday.
   */
  method FirstWindow(today: Day) returns (first: Option<Span>)
    ensures first.None? <==> today - 1 < JanFirst(StartYear) + 7
    ensures first.Some? ==> first.value.start == JanFirst(StartYear) && first.value.end <= today - 1
  {
    var plan := PlanYearly(today);
    PlannedYearlySpec(plan, today - 1);
    if plan == [] {
      return None;
    }
    return Some(plan[0]);
  }

  // ---------------------------------------------------------------------------------------
  // One run

  /** How a run ends. */
  datatype Outcome =
    | NoKeyword
    | NoWindows
      /** The first window was fetched and saved under `safe`; the move that follows fails. */
    | SavedThenCrashed(search: string, safe: string, span: Span, rows: Series)

  /**
   * `main` (lines 120-149, with the handler of lines 151-156). `today` is the day of `utcnow()`
   * and `answers` the provider's answers to the attempts for the first window. The keyword is the
   * first non-blank line, unstripped; it is searched stripped and saved under its sanitised name.
   * With no window it moves to `failed`; otherwise the first window is saved, and the move to
   * `processed` raises, which leaves the keyword in `processing`.
   */
  method Run(q: KeywordFiles, today: Day, answers: seq<Response>) returns (kw: Option<string>, out: Outcome)
    requires |answers| == MaxRetries
    modifies q
    ensures var read := NonBlank(Contents(old(q.unprocessed)));
      && (read == [] <==> out == NoKeyword)
      && (read == [] ==> (
        && kw == None && q.unprocessed == old(q.unprocessed) && q.processing == old(q.processing)
        && q.processed == old(q.processed) && q.failed == old(q.failed)))
      && (read != [] ==> kw == Some(read[0]) && q.unprocessed == Some(read[1..]))
    ensures out == NoWindows ==> (
      && kw.Some? && today - 1 < JanFirst(StartYear) + 7
      && q.processing == Some(Without(NonBlank(Contents(old(q.processing))), kw.value))
      && q.failed == Appended(old(q.failed), kw.value) && q.processed == old(q.processed))
    ensures out.SavedThenCrashed? ==> (
      && kw.Some? && out.search == Strip(kw.value) && out.safe == Sanitize(kw.value)
      && out.span.start == JanFirst(StartYear) && out.span.end <= today - 1
      && q.processing == Appended(old(q.processing), kw.value)
      && q.processed == old(q.processed) && q.failed == old(q.failed)
      && out.rows == Reindexed(FetchedRows(answers), FrameGrid(out.span.start, out.span.end)))
  {
    kw := q.PopLine();
    if kw.None? {
      return kw, NoKeyword;
    }
    var keyword := kw.value;
    q.MarkProcessing(keyword);
    var safe := Sanitize(keyword);
    var search := Strip(keyword);
    var first := FirstWindow(today);
    if first.None? {
      MoveLineUndoesMark(Contents(old(q.processing)), keyword);
      q.MoveLine(keyword, Failed);
      return kw, NoWindows;
    }
    var span := first.value;
    var df, _ := FetchGridWindow(span.start, span.end, answers);
    out := SavedThenCrashed(search, safe, span, df);
  }
}

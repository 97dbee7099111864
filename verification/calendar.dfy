/**
 * Calendar arithmetic the fetchers use: day numbers, Python's `weekday()`, the week snapping of
 * the grid fetcher, pandas' `W-SUN` date grid, Jan 1 of a year (the only dates `relativedelta(years=...)`
 * is applied to), and civil dates for `last_day_of_previous_month`.
 */
module Calendar {

  /** Days since 1970-01-01 (a Thursday). */
  type Day = int

  /** `weekday()` numbering: Monday is 0, Sunday is 6. */
  const Sunday := 6

  function Weekday(d: Day): int
  {
    (d + 3) % 7
  }

  lemma {:induction false} WeekdayShift(d: Day, k: int)
    ensures Weekday(d + k) == (Weekday(d) + k) % 7
  {
    var q := (d + 3) / 7;
    assert d + 3 == 7 * q + Weekday(d);
    assert d + k + 3 == 7 * q + (Weekday(d) + k);
  }

  /** Two days fall on the same weekday exactly when they are a whole number of weeks apart. */
  lemma SameWeekday(x: Day, y: Day)
    ensures Weekday(x) == Weekday(y) <==> (x - y) % 7 == 0
  {
    WeekdayShift(y, x - y);
  }

  /** `start - timedelta(days=(start.weekday() + 1) % 7)` (fetch_weekly_one_window.py, line 82). */
  function SundayOnOrBefore(d: Day): Day
  {
    d - (Weekday(d) + 1) % 7
  }

  /** The snapped start is the latest Sunday on or before `d`, at most six days earlier. */
  lemma SundayOnOrBeforeSpec(d: Day)
    ensures var r := SundayOnOrBefore(d);
      && Weekday(r) == Sunday
      && d - 6 <= r <= d
      && forall x :: r < x <= d ==> Weekday(x) != Sunday
  {
    var r := SundayOnOrBefore(d);
    WeekdayShift(d, r - d);
    forall x | r < x <= d ensures Weekday(x) != Sunday {
      WeekdayShift(r, x - r);
    }
  }

  /** `end + timedelta(days=(6 - end.weekday()) % 7)` (fetch_weekly_one_window.py, line 83). */
  function SundayOnOrAfter(d: Day): Day
  {
    d + (6 - Weekday(d)) % 7
  }

  /** The snapped end is the earliest Sunday on or after `d`, at most six days later. */
  lemma SundayOnOrAfterSpec(d: Day)
    ensures var r := SundayOnOrAfter(d);
      && Weekday(r) == Sunday
      && d <= r <= d + 6
      && forall x :: d <= x < r ==> Weekday(x) != Sunday
  {
    var r := SundayOnOrAfter(d);
    WeekdayShift(d, r - d);
    forall x | d <= x < r ensures Weekday(x) != Sunday {
      WeekdayShift(d, x - d);
    }
  }

  /** `pd.date_range(a, b, freq="W-SUN")`: the Sundays from `a` to `b`, both included. */
  function WeeklyGrid(a: Day, b: Day): seq<Day>
  {
    var f := SundayOnOrAfter(a);
    if f > b then [] else seq((b - f) / 7 + 1, i => f + 7 * i)
  }

  /** The grid is exactly the Sundays of `[a, b]`, in increasing order. */
  lemma WeeklyGridSpec(a: Day, b: Day)
    ensures var g := WeeklyGrid(a, b);
      && (forall i :: 0 <= i < |g| ==> a <= g[i] <= b && Weekday(g[i]) == Sunday)
      && (forall i, j :: 0 <= i < j < |g| ==> g[i] < g[j])
      && (forall x :: a <= x <= b && Weekday(x) == Sunday ==> x in g)
  {
    var g := WeeklyGrid(a, b);
    var f := SundayOnOrAfter(a);
    SundayOnOrAfterSpec(a);
    forall i | 0 <= i < |g| ensures a <= g[i] <= b && Weekday(g[i]) == Sunday {
      WeekdayShift(f, 7 * i);
    }
    forall x | a <= x <= b && Weekday(x) == Sunday ensures x in g {
      SameWeekday(x, f);
      var k := (x - f) / 7;
      assert x == f + 7 * k;
      assert g[k] == x;
    }
  }

  /** Gregorian leap years (the proleptic calendar of Python's `datetime`). */
  predicate IsLeap(y: int)
  {
    y % 4 == 0 && (y % 100 != 0 || y % 400 == 0)
  }

  function DaysInYear(y: int): int
  {
    if IsLeap(y) then 366 else 365
  }

  function LeapsBefore(y: int): int
  {
    (y - 1) / 4 - (y - 1) / 100 + (y - 1) / 400
  }

  /** The day number of January 1 of year `y`. */
  function JanFirst(y: int): Day
  {
    365 * (y - 1970) + LeapsBefore(y) - LeapsBefore(1970)
  }

  /** Consecutive Jan 1s are one calendar year apart. */
  lemma JanFirstNext(y: int)
    ensures JanFirst(y + 1) == JanFirst(y) + DaysInYear(y)
  {
    DivStep4(y);
    DivStep100(y);
    DivStep400(y);
  }

  /** Going from `y - 1` to `y` adds one multiple of 4 exactly when `y` is one. */
  lemma DivStep4(y: int)
    ensures y / 4 - (y - 1) / 4 == (if y % 4 == 0 then 1 else 0)
  {
  }

  lemma DivStep100(y: int)
    ensures y / 100 - (y - 1) / 100 == (if y % 100 == 0 then 1 else 0)
  {
  }

  lemma DivStep400(y: int)
    ensures y / 400 - (y - 1) / 400 == (if y % 400 == 0 then 1 else 0)
  {
  }

  /** `JanFirst(y) + relativedelta(years=k)` is `JanFirst(y + k)`, at least 365 days per year later. */
  lemma {:induction false} JanFirstGrows(y: int, k: nat)
    ensures JanFirst(y + k) >= JanFirst(y) + 365 * k
  {
    if k > 0 {
      JanFirstGrows(y, k - 1);
      JanFirstNext(y + k - 1);
    }
  }

  /** `datetime(2015, 1, 1)`, the history start of both weekly fetchers. */
  const StartYear := 2015

  lemma StartDay()
    ensures JanFirst(StartYear) == 16436
  {
  }

  /** A civil date as Python's `date` holds it. */
  datatype Date = Date(year: int, month: int, day: int)

  function DaysInMonth(y: int, m: int): int
    requires 1 <= m <= 12
  {
    if m == 2 then (if IsLeap(y) then 29 else 28)
    else if m == 4 || m == 6 || m == 9 || m == 11 then 30
    else 31
  }

  predicate ValidDate(d: Date)
  {
    1 <= d.month <= 12 && 1 <= d.day <= DaysInMonth(d.year, d.month)
  }

  /** `d - timedelta(days=1)`. */
  function PrevDay(d: Date): Date
    requires ValidDate(d)
  {
    if d.day > 1 then Date(d.year, d.month, d.day - 1)
    else if d.month > 1 then Date(d.year, d.month - 1, DaysInMonth(d.year, d.month - 1))
    else Date(d.year - 1, 12, 31)
  }

  /** `d + timedelta(days=1)`. */
  function NextDay(d: Date): Date
    requires ValidDate(d)
  {
    if d.day < DaysInMonth(d.year, d.month) then Date(d.year, d.month, d.day + 1)
    else if d.month < 12 then Date(d.year, d.month + 1, 1)
    else Date(d.year + 1, 1, 1)
  }

  /** The two one-day steps are inverse to each other on valid dates. */
  lemma PrevNextInverse(d: Date)
    requires ValidDate(d)
    ensures ValidDate(PrevDay(d)) && NextDay(PrevDay(d)) == d
    ensures ValidDate(NextDay(d)) && PrevDay(NextDay(d)) == d
  {
  }

  /**
   * `last_day_of_previous_month` (fetch_one_keyword.py, lines 29-32): the day before the first of
   * the current month, that is, the last day of the previous calendar month.
   */
  function LastDayOfPreviousMonth(today: Date): (r: Date)
    requires ValidDate(today)
    ensures ValidDate(r)
    ensures r.day == DaysInMonth(r.year, r.month)
    ensures r.year * 12 + r.month == today.year * 12 + today.month - 1
    ensures NextDay(r) == Date(today.year, today.month, 1)
  {
    PrevDay(Date(today.year, today.month, 1))
  }
}

/**
 * A time series as the scripts hold it in a one-column pandas DataFrame: rows of
 * (day, value), where a missing value or NaN is `None`. Label slicing (`df.loc[lo:hi]`,
 * `df.loc[lo:]`), `dropna`, `median`, multiplication by a scale and the
 * "concat, drop duplicate timestamps keeping the last, sort" idiom are defined here.
 */
module Series {
  import opened Wrappers
  import opened Calendar
  import Seqs

  datatype Row = Row(day: Day, val: Option<real>)

  type Series = seq<Row>

  /** A fetched window: its rows and the bounds the stitcher uses for it. */
  datatype Window = Window(rows: Series, start: Day, end: Day)

  /** Every row of the window lies within its bounds. */
  predicate Bounded(w: Window)
  {
    forall x :: x in w.rows ==> w.start <= x.day <= w.end
  }

  /** Strictly increasing timestamps: sorted, with no duplicates. */
  predicate Increasing(s: Series)
  {
    forall i, j :: 0 <= i < j < |s| ==> s[i].day < s[j].day
  }

  function Days(s: Series): set<Day>
  {
    set i | 0 <= i < |s| :: s[i].day
  }

  lemma DaysCons(s: Series)
    requires s != []
    ensures Days(s) == {s[0].day} + Days(s[1..])
  {
    forall d | d in Days(s) ensures d in {s[0].day} + Days(s[1..]) {
      var i :| 0 <= i < |s| && s[i].day == d;
      if i > 0 { assert s[1..][i - 1].day == d; }
    }
    forall d | d in Days(s[1..]) ensures d in Days(s) {
      var i :| 0 <= i < |s[1..]| && s[1..][i].day == d;
      assert s[i + 1].day == d;
    }
  }

  lemma DaysMember(s: Series, x: Row)
    requires x in s
    ensures x.day in Days(s)
  {
    var i :| 0 <= i < |s| && s[i] == x;
  }

  /** `df.loc[lo:hi]` on a sorted index: the rows whose day lies in `[lo, hi]`, in order. */
  function Slice(s: Series, lo: Day, hi: Day): (r: Series)
    ensures forall x :: x in r <==> x in s && lo <= x.day <= hi
    ensures |r| <= |s|
    ensures Increasing(s) ==> Increasing(r)
  {
    if s == [] then []
    else
      assert forall x :: x in s <==> x == s[0] || x in s[1..];
      if lo <= s[0].day <= hi then [s[0]] + Slice(s[1..], lo, hi) else Slice(s[1..], lo, hi)
  }

  /** `df.loc[lo:]` on a sorted index: the rows whose day is `lo` or later, in order. */
  function From(s: Series, lo: Day): (r: Series)
    ensures forall x :: x in r <==> x in s && lo <= x.day
    ensures |r| <= |s|
    ensures Increasing(s) ==> Increasing(r)
  {
    if s == [] then []
    else
      assert forall x :: x in s <==> x == s[0] || x in s[1..];
      if lo <= s[0].day then [s[0]] + From(s[1..], lo) else From(s[1..], lo)
  }

  /**
   * The present values, in row order (`dropna`): every row with a value keeps it, so nothing is
   * dropped exactly when no value is missing, and nothing is left exactly when all are.
   */
  function Present(s: Series): (r: seq<real>)
    ensures |r| <= |s|
    ensures |r| == |s| <==> forall i :: 0 <= i < |s| ==> s[i].val.Some?
    ensures r == [] <==> forall i :: 0 <= i < |s| ==> s[i].val.None?
  {
    if s == [] then []
    else
      match s[0].val
      case Some(v) => [v] + Present(s[1..])
      case None => Present(s[1..])
  }

  /** A value is present exactly when some row holds it. */
  lemma {:induction false} PresentMembers(s: Series, v: real)
    ensures v in Present(s) <==> exists i :: 0 <= i < |s| && s[i].val == Some(v)
  {
    if s != [] {
      PresentMembers(s[1..], v);
      if i :| 0 <= i < |s[1..]| && s[1..][i].val == Some(v) {
        assert s[i + 1].val == Some(v);
      }
      if i :| 0 <= i < |s| && s[i].val == Some(v) {
        if i > 0 {
          assert s[1..][i - 1].val == Some(v);
        }
      }
    }
  }

  /** Two series over the same timestamps, row by row (a value-wise transformation keeps the index). */
  predicate SameDays(a: Series, b: Series)
  {
    |a| == |b| && forall i :: 0 <= i < |a| ==> a[i].day == b[i].day
  }

  lemma SameDaysIncreasing(a: Series, b: Series)
    requires SameDays(a, b) && Increasing(a)
    ensures Increasing(b)
  {
    forall i, j | 0 <= i < j < |b| ensures b[i].day < b[j].day {
      assert a[i].day < a[j].day;
    }
  }

  /** `df * c`: every present value multiplied by `c`; a NaN stays NaN. */
  function ScaleRows(s: Series, c: real): (r: Series)
    ensures SameDays(s, r)
  {
    if s == [] then [] else [Row(s[0].day, ScaleVal(s[0].val, c))] + ScaleRows(s[1..], c)
  }

  /** One value times the scale. */
  function Times(x: real, c: real): real
  {
    x * c
  }

  function ScaleVal(v: Option<real>, c: real): Option<real>
  {
    match v
    case Some(x) => Some(Times(x, c))
    case None => None
  }

  lemma ScaleRowsTail(s: Series, c: real)
    requires s != []
    ensures ScaleRows(s, c)[0] == Row(s[0].day, ScaleVal(s[0].val, c))
    ensures ScaleRows(s, c)[1..] == ScaleRows(s[1..], c)
  {
  }

  /** `df * nan`: every value becomes NaN. */
  function Blanked(s: Series): (r: Series)
    ensures SameDays(s, r)
    ensures forall i :: 0 <= i < |s| ==> r[i].val == None
    ensures Present(r) == []
  {
    seq(|s|, i requires 0 <= i < |s| => Row(s[i].day, None))
  }

  /** No timestamp occurs twice (what `df.reindex` needs of the index it starts from). */
  predicate UniqueDays(s: Series)
  {
    forall i, j :: 0 <= i < j < |s| ==> s[i].day != s[j].day
  }

  /** The value at `d`, or `None` when the day is absent (`df.reindex` fills a gap with NaN). */
  function Lookup(s: Series, d: Day): (v: Option<real>)
    ensures v != None ==> Row(d, v) in s
    ensures UniqueDays(s) ==> forall x :: x in s && x.day == d ==> v == x.val
    ensures (forall x :: x in s ==> x.day != d) ==> v == None
  {
    if s == [] then None
    else if s[0].day == d then
      assert UniqueDays(s) ==> forall x :: x in s[1..] ==> x.day != d by {
        if UniqueDays(s) {
          forall x | x in s[1..] ensures x.day != d {
            var j :| 0 <= j < |s[1..]| && s[1..][j] == x;
            assert s[j + 1] == x;
          }
        }
      }
      s[0].val
    else
      assert forall x :: x in s <==> x == s[0] || x in s[1..];
      assert UniqueDays(s) ==> UniqueDays(s[1..]) by {
        if UniqueDays(s) {
          forall i, j | 0 <= i < j < |s[1..]| ensures s[1..][i].day != s[1..][j].day {
            assert s[1..][i] == s[i + 1] && s[1..][j] == s[j + 1];
          }
        }
      }
      Lookup(s[1..], d)
  }

  // ---------------------------------------------------------------------------------------
  // Median over the present values (pandas' `median` skips NaN)

  predicate SortedReals(xs: seq<real>)
  {
    forall i, j :: 0 <= i < j < |xs| ==> xs[i] <= xs[j]
  }

  function InsertReal(xs: seq<real>, x: real): (r: seq<real>)
    ensures |r| == |xs| + 1
    ensures multiset(r) == multiset(xs) + multiset{x}
  {
    if xs == [] then [x]
    else if x <= xs[0] then [x] + xs
    else
      assert xs == [xs[0]] + xs[1..];
      [xs[0]] + InsertReal(xs[1..], x)
  }

  function SortReals(xs: seq<real>): (r: seq<real>)
    ensures |r| == |xs|
    ensures multiset(r) == multiset(xs)
  {
    if xs == [] then []
    else
      assert xs == [xs[0]] + xs[1..];
      InsertReal(SortReals(xs[1..]), xs[0])
  }

  lemma {:induction false} InsertRealSorted(xs: seq<real>, x: real)
    requires SortedReals(xs)
    ensures SortedReals(InsertReal(xs, x))
  {
    if xs != [] && x > xs[0] {
      InsertRealSorted(xs[1..], x);
      assert forall k :: 0 <= k < |xs[1..]| ==> xs[0] <= xs[1..][k] by {
        forall k | 0 <= k < |xs[1..]| ensures xs[0] <= xs[1..][k] {
          assert xs[1..][k] == xs[k + 1];
        }
      }
      InsertRealAbove(xs[1..], x, xs[0]);
      SortedRealsCons(xs[0], InsertReal(xs[1..], x));
    }
  }

  /** Inserting a value no smaller than `lo` among values no smaller than `lo` keeps them so. */
  lemma InsertRealAbove(xs: seq<real>, x: real, lo: real)
    requires lo <= x && forall k :: 0 <= k < |xs| ==> lo <= xs[k]
    ensures forall k :: 0 <= k < |InsertReal(xs, x)| ==> lo <= InsertReal(xs, x)[k]
  {
    var r := InsertReal(xs, x);
    forall k | 0 <= k < |r| ensures lo <= r[k] {
      assert r[k] in multiset(r);
      if r[k] != x {
        assert r[k] in multiset(xs);
        var j :| 0 <= j < |xs| && xs[j] == r[k];
      }
    }
  }

  /** A first value no larger than the sorted rest gives a sorted list. */
  lemma SortedRealsCons(h: real, t: seq<real>)
    requires SortedReals(t) && forall k :: 0 <= k < |t| ==> h <= t[k]
    ensures SortedReals([h] + t)
  {
    var r := [h] + t;
    forall i, j | 0 <= i < j < |r| ensures r[i] <= r[j] {
      assert r[j] == t[j - 1];
      if i > 0 { assert r[i] == t[i - 1]; }
    }
  }

  /** Sorting gives an ordered permutation of the values. */
  lemma {:induction false} SortRealsSpec(xs: seq<real>)
    ensures SortedReals(SortReals(xs)) && |SortReals(xs)| == |xs|
  {
    if xs != [] {
      SortRealsSpec(xs[1..]);
      InsertRealSorted(SortReals(xs[1..]), xs[0]);
    }
    assert |multiset(SortReals(xs))| == |multiset(xs)|;
  }

  /** Sorting an already ordered sequence changes nothing. */
  lemma {:induction false} SortRealsOfSorted(xs: seq<real>)
    requires SortedReals(xs)
    ensures SortReals(xs) == xs
  {
    if xs != [] {
      SortRealsOfSorted(xs[1..]);
      assert xs == [xs[0]] + xs[1..];
    }
  }

  /** The median of the values: the middle one, or the mean of the two middle ones. */
  function Median(xs: seq<real>): real
    requires |xs| > 0
  {
    Middle(SortReals(xs))
  }

  /** The middle value of an ordered sequence, or the mean of the two middle ones. */
  function Middle(t: seq<real>): real
    requires |t| > 0
  {
    var n := |t|;
    if n % 2 == 1 then t[n / 2] else (t[n / 2 - 1] + t[n / 2]) / 2.0
  }

  /** On values already in order, the median is the middle value (or the mean of the middle two). */
  lemma MedianOfSorted(t: seq<real>)
    requires |t| > 0 && SortedReals(t)
    ensures Median(t) == Middle(t)
  {
    SortRealsOfSorted(t);
  }

  /** The median lies between the smallest and the largest value, so it is positive when they all are. */
  lemma MedianBounds(xs: seq<real>, lo: real, hi: real)
    requires |xs| > 0
    requires forall i :: 0 <= i < |xs| ==> lo <= xs[i] <= hi
    ensures lo <= Median(xs) <= hi
  {
    SortRealsSpec(xs);
    var t := SortReals(xs);
    forall k | 0 <= k < |t| ensures lo <= t[k] <= hi {
      assert t[k] in multiset(xs);
    }
    assert lo <= Middle(t) <= hi;
  }

  function ScaleReals(xs: seq<real>, c: real): (r: seq<real>)
    ensures |r| == |xs|
    ensures forall i :: 0 <= i < |xs| ==> r[i] == Times(xs[i], c)
  {
    if xs == [] then [] else [Times(xs[0], c)] + ScaleReals(xs[1..], c)
  }

  lemma ScaleRealsCons(x: real, xs: seq<real>, c: real)
    ensures ScaleReals([x] + xs, c) == [Times(x, c)] + ScaleReals(xs, c)
  {
    assert ([x] + xs)[1..] == xs;
  }

  lemma {:induction false} InsertRealScale(xs: seq<real>, x: real, c: real)
    requires c > 0.0
    ensures InsertReal(ScaleReals(xs, c), Times(x, c)) == ScaleReals(InsertReal(xs, x), c)
  {
    if xs == [] {
      ScaleRealsCons(x, [], c);
    } else {
      ScaleRealsCons(xs[0], xs[1..], c);
      assert [xs[0]] + xs[1..] == xs;
      assert x <= xs[0] <==> Times(x, c) <= Times(xs[0], c);
      if x > xs[0] {
        InsertRealScale(xs[1..], x, c);
        ScaleRealsCons(xs[0], InsertReal(xs[1..], x), c);
      } else {
        ScaleRealsCons(x, xs, c);
      }
    }
  }

  /** Scaling by a positive factor commutes with sorting. */
  lemma {:induction false} SortRealsScale(xs: seq<real>, c: real)
    requires c > 0.0
    ensures SortReals(ScaleReals(xs, c)) == ScaleReals(SortReals(xs), c)
  {
    if xs != [] {
      var ys := ScaleReals(xs, c);
      assert ys[1..] == ScaleReals(xs[1..], c);
      SortRealsScale(xs[1..], c);
      InsertRealScale(SortReals(xs[1..]), xs[0], c);
      assert SortReals(ys) == InsertReal(SortReals(ys[1..]), ys[0]);
    }
  }

  lemma MeanTimes(a: real, b: real, c: real)
    ensures (Times(a, c) + Times(b, c)) / 2.0 == Times((a + b) / 2.0, c)
  {
  }

  lemma MiddleScale(t: seq<real>, c: real)
    requires |t| > 0
    ensures Middle(ScaleReals(t, c)) == Times(Middle(t), c)
  {
    var n := |t|;
    if n % 2 == 0 {
      MeanTimes(t[n / 2 - 1], t[n / 2], c);
    }
  }

  /** Multiplying every value by a positive `c` multiplies the median by `c`. */
  lemma MedianScale(xs: seq<real>, c: real)
    requires |xs| > 0 && c > 0.0
    ensures Median(ScaleReals(xs, c)) == Times(Median(xs), c)
  {
    SortRealsScale(xs, c);
    SortRealsSpec(xs);
    MiddleScale(SortReals(xs), c);
  }

  /** Scaling by zero gives a median of zero. */
  lemma MedianTimesZero(xs: seq<real>)
    requires |xs| > 0
    ensures Median(ScaleReals(xs, 0.0)) == 0.0
  {
    var z := ScaleReals(xs, 0.0);
    assert forall i :: 0 <= i < |z| ==> z[i] == 0.0;
    SortRealsSpec(z);
    var t := SortReals(z);
    forall k | 0 <= k < |t| ensures t[k] == 0.0 {
      assert t[k] in multiset(z);
      var i :| 0 <= i < |z| && z[i] == t[k];
    }
    MiddleOfZeros(t);
  }

  lemma MiddleOfZeros(t: seq<real>)
    requires |t| > 0 && forall k :: 0 <= k < |t| ==> t[k] == 0.0
    ensures Middle(t) == 0.0
  {
  }

  lemma RatioTimes(a: real, m: real, c: real)
    requires m > 0.0 && a >= 0.0 && c == a / m
    ensures c >= 0.0 && Times(m, c) == a
    ensures a > 0.0 ==> c > 0.0
  {
  }

  /**
   * Scaling `pn` by the ratio of the medians of `po` and `pn` gives it the median of `po`
   * (for a non-negative `po` median and a positive `pn` median).
   */
  lemma MedianAligned(po: seq<real>, pn: seq<real>, c: real)
    requires |po| > 0 && |pn| > 0 && Median(pn) > 0.0 && Median(po) >= 0.0
    requires c == Median(po) / Median(pn)
    ensures Median(ScaleReals(pn, c)) == Median(po)
  {
    RatioTimes(Median(po), Median(pn), c);
    if c > 0.0 {
      MedianScale(pn, c);
    } else {
      MedianTimesZero(pn);
    }
  }

  /** Scaling the rows scales exactly their present values. */
  lemma {:induction false} PresentScale(s: Series, c: real)
    ensures Present(ScaleRows(s, c)) == ScaleReals(Present(s), c)
  {
    if s != [] {
      PresentScale(s[1..], c);
      ScaleRowsTail(s, c);
      if s[0].val.Some? {
        ScaleRealsCons(s[0].val.value, Present(s[1..]), c);
      }
    }
  }

  /** Slicing and scaling commute. */
  lemma {:induction false} SliceScale(s: Series, lo: Day, hi: Day, c: real)
    ensures Slice(ScaleRows(s, c), lo, hi) == ScaleRows(Slice(s, lo, hi), c)
  {
    if s != [] {
      SliceScale(s[1..], lo, hi, c);
      ScaleRowsTail(s, c);
      if lo <= s[0].day <= hi {
        var t := Slice(s[1..], lo, hi);
        assert ([s[0]] + t)[1..] == t;
      }
    }
  }

  /** `df.loc[lo:]` keeps exactly the timestamps from `lo` on. */
  lemma FromDays(s: Series, lo: Day)
    ensures forall d :: d in Days(From(s, lo)) <==> d in Days(s) && lo <= d
  {
    var r := From(s, lo);
    forall d | d in Days(r) ensures d in Days(s) && lo <= d {
      var i :| 0 <= i < |r| && r[i].day == d;
      DaysMember(s, r[i]);
    }
    forall d | d in Days(s) && lo <= d ensures d in Days(r) {
      var i :| 0 <= i < |s| && s[i].day == d;
      DaysMember(r, s[i]);
    }
  }

  /** Value-wise transformations keep the timestamps, so slicing them from `lo` keeps the same ones. */
  lemma {:induction false} FromSameDays(a: Series, b: Series, lo: Day)
    requires SameDays(a, b)
    ensures Days(From(a, lo)) == Days(From(b, lo))
  {
    if a != [] {
      FromSameDays(a[1..], b[1..], lo);
      if lo <= a[0].day {
        DaysCons(From(a, lo));
        DaysCons(From(b, lo));
      }
    }
  }

  lemma SameDaysDays(a: Series, b: Series)
    requires SameDays(a, b)
    ensures Days(a) == Days(b)
  {
    forall d | d in Days(a) ensures d in Days(b) {
      var i :| 0 <= i < |a| && a[i].day == d;
      assert b[i].day == d;
    }
    forall d | d in Days(b) ensures d in Days(a) {
      var i :| 0 <= i < |b| && b[i].day == d;
      assert a[i].day == d;
    }
  }

  // ---------------------------------------------------------------------------------------
  // Concatenate, drop duplicate timestamps keeping the last, sort

  lemma HeadIsFirst(s: Series)
    requires Increasing(s) && s != []
    ensures forall x :: x in s[1..] ==> s[0].day < x.day
    ensures forall x :: x in s ==> x == s[0] || x in s[1..]
  {
    forall x | x in s[1..] ensures s[0].day < x.day {
      var j :| 0 <= j < |s[1..]| && s[1..][j] == x;
      assert s[j + 1] == x;
    }
  }

  /**
   * `pd.concat([a, b])`, then `[~index.duplicated(keep="last")]`, then `sort_index()`, for two
   * series with strictly increasing timestamps.
   */
  function Merge(a: Series, b: Series): Series
    requires Increasing(a) && Increasing(b)
    decreases |a| + |b|
  {
    if a == [] then b
    else if b == [] then a
    else if a[0].day < b[0].day then [a[0]] + Merge(a[1..], b)
    else if a[0].day == b[0].day then [b[0]] + Merge(a[1..], b[1..])
    else [b[0]] + Merge(a, b[1..])
  }

  /** A merge keeps every row of `b`, and exactly the rows of `a` on days `b` does not have. */
  lemma {:induction false} MergeMembers(a: Series, b: Series)
    requires Increasing(a) && Increasing(b)
    ensures forall x :: x in Merge(a, b) <==> x in b || (x in a && x.day !in Days(b))
    decreases |a| + |b|
  {
    if a != [] && b != [] {
      DaysCons(b);
      HeadIsFirst(a);
      HeadIsFirst(b);
      if a[0].day < b[0].day {
        MergeMembers(a[1..], b);
      } else if a[0].day == b[0].day {
        MergeMembers(a[1..], b[1..]);
      } else {
        MergeMembers(a, b[1..]);
      }
    }
  }

  lemma IncreasingCons(h: Row, t: Series)
    requires Increasing(t)
    requires forall x :: x in t ==> h.day < x.day
    ensures Increasing([h] + t)
  {
    var r := [h] + t;
    forall i, j | 0 <= i < j < |r| ensures r[i].day < r[j].day {
      assert r[j] == t[j - 1];
      if i > 0 { assert r[i] == t[i - 1]; }
    }
  }

  /** A merge has strictly increasing timestamps: sorted, and no timestamp twice. */
  lemma {:induction false} MergeIncreasing(a: Series, b: Series)
    requires Increasing(a) && Increasing(b)
    ensures Increasing(Merge(a, b))
    decreases |a| + |b|
  {
    if a != [] && b != [] {
      HeadIsFirst(a);
      HeadIsFirst(b);
      if a[0].day < b[0].day {
        MergeIncreasing(a[1..], b);
        MergeMembers(a[1..], b);
        IncreasingCons(a[0], Merge(a[1..], b));
      } else if a[0].day == b[0].day {
        MergeIncreasing(a[1..], b[1..]);
        MergeMembers(a[1..], b[1..]);
        IncreasingCons(b[0], Merge(a[1..], b[1..]));
      } else {
        MergeIncreasing(a, b[1..]);
        MergeMembers(a, b[1..]);
        IncreasingCons(b[0], Merge(a, b[1..]));
      }
    }
  }

  /**
   * When every row of `a` comes before every row of `b`, dropping duplicates finds none and
   * sorting moves nothing: the merge is the plain concatenation.
   */
  lemma {:induction false} MergeAppends(a: Series, b: Series)
    requires Increasing(a) && Increasing(b)
    requires a != [] && b != [] ==> a[|a| - 1].day < b[0].day
    ensures Merge(a, b) == a + b
    decreases |a|
  {
    if a == [] {
      assert a + b == b;
    } else if b == [] {
      assert a + b == a;
    } else {
      var t := a[1..];
      IncreasingTail(a);
      if t != [] {
        assert t[|t| - 1] == a[|a| - 1];
        assert a[0].day < a[|a| - 1].day;
      }
      MergeAppends(t, b);
      MergeAppendsStep(a, b);
    }
  }

  /** One step of `MergeAppends`: a first row before all of `b` goes first. */
  lemma MergeAppendsStep(a: Series, b: Series)
    requires a != [] && b != [] && Increasing(a) && Increasing(a[1..]) && Increasing(b)
    requires a[0].day < b[0].day && Merge(a[1..], b) == a[1..] + b
    ensures Merge(a, b) == a + b
  {
    assert Merge(a, b) == [a[0]] + Merge(a[1..], b);
    Seqs.HeadTailAppend(a, b);
  }

  /** Dropping the first row keeps the timestamps increasing. */
  lemma IncreasingTail(s: Series)
    requires Increasing(s) && s != []
    ensures Increasing(s[1..])
  {
    var t := s[1..];
    forall i, j | 0 <= i < j < |t| ensures t[i].day < t[j].day {
      assert t[i] == s[i + 1] && t[j] == s[j + 1];
    }
  }

  /** The timestamps of a merge are those of both inputs. */
  lemma MergeDays(a: Series, b: Series)
    requires Increasing(a) && Increasing(b)
    ensures Days(Merge(a, b)) == Days(a) + Days(b)
  {
    var r := Merge(a, b);
    MergeMembers(a, b);
    forall d | d in Days(r) ensures d in Days(a) + Days(b) {
      var i :| 0 <= i < |r| && r[i].day == d;
      if r[i] in b { DaysMember(b, r[i]); } else { DaysMember(a, r[i]); }
    }
    forall d | d in Days(a) + Days(b) ensures d in Days(r) {
      if d in Days(b) {
        var i :| 0 <= i < |b| && b[i].day == d;
        DaysMember(r, b[i]);
      } else {
        var i :| 0 <= i < |a| && a[i].day == d;
        DaysMember(r, a[i]);
      }
    }
  }
}

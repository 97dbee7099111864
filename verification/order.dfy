/**
 * Python's ordering of `str` values (code point by code point, a proper prefix first)
 * and `sorted(...)` of a list or of a set of strings.
 */
module StringOrder {

  /** `a <= b` on Python strings. */
  predicate Le(a: string, b: string)
  {
    a == [] || (b != [] && (a[0] < b[0] || (a[0] == b[0] && Le(a[1..], b[1..]))))
  }

  lemma {:induction false} LeRefl(a: string)
    ensures Le(a, a)
  {
    if a != [] { LeRefl(a[1..]); }
  }

  lemma {:induction false} LeAntisym(a: string, b: string)
    requires Le(a, b) && Le(b, a)
    ensures a == b
  {
    if a != [] && b != [] {
      LeAntisym(a[1..], b[1..]);
      assert a == [a[0]] + a[1..];
      assert b == [b[0]] + b[1..];
    }
  }

  lemma {:induction false} LeTrans(a: string, b: string, c: string)
    requires Le(a, b) && Le(b, c)
    ensures Le(a, c)
  {
    if a != [] && b != [] && c != [] && a[0] == b[0] == c[0] {
      LeTrans(a[1..], b[1..], c[1..]);
    }
  }

  lemma {:induction false} LeTotal(a: string, b: string)
    ensures Le(a, b) || Le(b, a)
  {
    if a != [] && b != [] && a[0] == b[0] {
      LeTotal(a[1..], b[1..]);
    }
  }

  /** Non-decreasing, as `sorted` returns. */
  predicate Sorted(xs: seq<string>)
  {
    forall i, j :: 0 <= i < j < |xs| ==> Le(xs[i], xs[j])
  }

  /** Inserts `x` before the first element it is `<=` to. */
  function Insert(xs: seq<string>, x: string): (r: seq<string>)
    ensures multiset(r) == multiset(xs) + multiset{x}
  {
    if xs == [] then [x]
    else if Le(x, xs[0]) then [x] + xs
    else
      assert xs == [xs[0]] + xs[1..];
      [xs[0]] + Insert(xs[1..], x)
  }

  lemma {:induction false} InsertSorted(xs: seq<string>, x: string)
    requires Sorted(xs)
    ensures Sorted(Insert(xs, x))
  {
    if xs != [] && !Le(x, xs[0]) {
      InsertSorted(xs[1..], x);
      LeTotal(x, xs[0]);
      var r := Insert(xs[1..], x);
      forall k | 0 <= k < |r| ensures Le(xs[0], r[k]) {
        assert r[k] in multiset(r);
        if r[k] == x {
        } else {
          assert r[k] in multiset(xs[1..]);
          var j :| 0 <= j < |xs[1..]| && xs[1..][j] == r[k];
          assert xs[j + 1] == r[k];
        }
      }
    } else if xs != [] {
      forall k | 0 < k < |xs| ensures Le(x, xs[k]) {
        LeTrans(x, xs[0], xs[k]);
      }
    }
  }

  /** `sorted(xs)` for a list of strings (insertion sort: the result is the same for every stable sort). */
  function Sort(xs: seq<string>): (r: seq<string>)
    ensures multiset(r) == multiset(xs)
  {
    if xs == [] then []
    else
      assert xs == [xs[0]] + xs[1..];
      Insert(Sort(xs[1..]), xs[0])
  }

  /** `sorted` returns a permutation of its input in non-decreasing order. */
  lemma {:induction false} SortSorted(xs: seq<string>)
    ensures Sorted(Sort(xs)) && multiset(Sort(xs)) == multiset(xs) && |Sort(xs)| == |xs|
  {
    if xs != [] {
      SortSorted(xs[1..]);
      InsertSorted(Sort(xs[1..]), xs[0]);
    }
    assert |multiset(Sort(xs))| == |multiset(xs)|;
  }

  predicate Distinct(xs: seq<string>)
  {
    forall i, j :: 0 <= i < j < |xs| ==> xs[i] != xs[j]
  }

  lemma {:induction false} InsertDistinct(xs: seq<string>, x: string)
    requires Distinct(xs) && x !in xs
    ensures Distinct(Insert(xs, x))
  {
    if xs != [] && !Le(x, xs[0]) {
      InsertDistinct(xs[1..], x);
      assert xs[0] !in multiset(Insert(xs[1..], x));
    }
  }

  /**
   * `sorted(s)` for a set of strings, as `write_set` writes it: every element once, in
   * increasing order.
   */
  method SortedSet(s: set<string>) returns (r: seq<string>)
    ensures Sorted(r) && Distinct(r)
    ensures multiset(r) == multiset(s)
    ensures forall y :: y in r <==> y in s
  {
    r := [];
    var rest := s;
    while rest != {}
      invariant rest <= s
      invariant Sorted(r) && Distinct(r)
      invariant forall y :: y in r ==> y !in rest
      invariant multiset(r) + multiset(rest) == multiset(s)
      decreases rest
    {
      var x :| x in rest;
      InsertSorted(r, x);
      InsertDistinct(r, x);
      forall y | y in Insert(r, x) ensures y in r || y == x {
        assert y in multiset(Insert(r, x));
      }
      r := Insert(r, x);
      rest := rest - {x};
    }
    forall y ensures y in r <==> y in s {
      assert y in r <==> y in multiset(r);
      assert y in s <==> y in multiset(s);
    }
  }

  /**
   * A sorted list without repeats is fixed by its members: `sorted(s)` is the only way to list a
   * set in order, so a file `write_set` wrote is determined by the set.
   */
  lemma {:induction false} SortedDistinctUnique(a: seq<string>, b: seq<string>)
    requires Sorted(a) && Distinct(a) && Sorted(b) && Distinct(b)
    requires forall y :: y in a <==> y in b
    ensures a == b
  {
    assert a != [] ==> a[0] in b;
    assert b != [] ==> b[0] in a;
    if a != [] && b != [] {
      var i :| 0 <= i < |a| && a[i] == b[0];
      var j :| 0 <= j < |b| && b[j] == a[0];
      if i == 0 { LeRefl(a[0]); }
      if j == 0 { LeRefl(b[0]); }
      LeAntisym(a[0], b[0]);
      assert a == [a[0]] + a[1..] && b == [b[0]] + b[1..];
      forall y ensures y in a[1..] <==> y in b[1..] {
        if y in a[1..] {
          var k :| 0 <= k < |a[1..]| && a[1..][k] == y;
          assert a[k + 1] == y && y != a[0];
          assert y in a;
          var m :| 0 <= m < |b| && b[m] == y;
          assert b[1..][m - 1] == y;
        }
        if y in b[1..] {
          var k :| 0 <= k < |b[1..]| && b[1..][k] == y;
          assert b[k + 1] == y && y != b[0];
          assert y in b;
          var m :| 0 <= m < |a| && a[m] == y;
          assert a[1..][m - 1] == y;
        }
      }
      SortedDistinctUnique(a[1..], b[1..]);
    }
  }
}

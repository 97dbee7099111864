/** Facts about slicing and appending lists, stated once for any element type. */
module Seqs {

  /** A non-empty list is its first element followed by the rest. */
  lemma HeadTail<T>(xs: seq<T>)
    requires xs != []
    ensures [xs[0]] + xs[1..] == xs
  {
  }

  /** Putting the head back in front of the tail's extension extends the whole list. */
  lemma HeadTailAppend<T>(xs: seq<T>, ys: seq<T>)
    requires xs != []
    ensures [xs[0]] + (xs[1..] + ys) == xs + ys
  {
    assert [xs[0]] + xs[1..] == xs;
  }

  /** The first `i + 1` elements are the first `i` followed by element `i`. */
  lemma TakeSnoc<T>(xs: seq<T>, i: nat)
    requires i < |xs|
    ensures xs[..i + 1] == xs[..i] + [xs[i]]
  {
  }

  /** Appending to a non-empty list keeps its head and appends to its tail. */
  lemma ConsSnoc<T>(xs: seq<T>, x: T)
    requires xs != []
    ensures (xs + [x])[0] == xs[0] && (xs + [x])[1..] == xs[1..] + [x]
  {
  }

  /** Appending is associative. */
  lemma AppendAssoc<T>(a: seq<T>, b: seq<T>, c: seq<T>)
    ensures a + (b + c) == (a + b) + c
  {
  }

  /** An appended list splits back into its two parts. */
  lemma AppendParts<T>(a: seq<T>, b: seq<T>)
    ensures (a + b)[..|a|] == a && (a + b)[|a|..] == b
  {
  }

  /** Cutting a prefix shorter than a prefix is cutting the list itself. */
  lemma TakeTake<T>(xs: seq<T>, i: nat, j: nat)
    requires i <= j <= |xs|
    ensures xs[..j][..i] == xs[..i]
  {
  }

  /** Taking the whole list leaves it as it is. */
  lemma TakeAll<T>(xs: seq<T>)
    ensures xs[..|xs|] == xs
  {
  }

  /**
   * Visiting `xs` in order and collecting the visited items that lie in `keep`: one more visit
   * collects the next item exactly when it lies in `keep`.
   */
  lemma SeenStep<T>(xs: seq<T>, n: nat, seen: set<T>, seen': set<T>, keep: set<T>)
    requires n < |xs|
    requires forall y :: y in seen <==> y in xs[..n] && y in keep
    requires seen' == if xs[n] in keep then seen + {xs[n]} else seen
    ensures forall y :: y in seen' <==> y in xs[..n + 1] && y in keep
  {
    TakeSnoc(xs, n);
  }

  /** Once every item of a list holding all of `all` is visited, everything in `keep` (within `all`) is collected. */
  lemma SeenAll<T>(xs: seq<T>, seen: set<T>, keep: set<T>, all: set<T>)
    requires forall y :: y in seen <==> y in xs[..|xs|] && y in keep
    requires forall y :: y in xs <==> y in all
    requires keep <= all
    ensures seen == keep
  {
    TakeAll(xs);
  }
}

/**
 * The keyword-status reconciliation both sync scripts run against the master list: status files
 * read as sets, new master keywords queued, keywords dropped from the master removed from the
 * queue, the processed and failed lists, and the status sets written back sorted. A processed
 * keyword that left the master is only removed (and its data deleted) once it is no longer in
 * processing.
 */
module Reconcile {
  import opened Text
  import opened Lines
  import opened StringOrder

  // ---------------------------------------------------------------------------------------
  // Reading and writing status sets

  /** `read_set` of the monthly sync (sync_master_and_cleanup.py, lines 22-27). */
  function ReadKeywordSet(f: File): set<string>
  {
    set x | x in NonBlankStripped(Contents(f)) && !IsComment(x)
  }

  /** `read_set` of the weekly sync (sync_master_weekly.py, lines 33-37): `#` lines are kept. */
  function ReadTopicSet(f: File): set<string>
  {
    set x | x in NonBlankStripped(Contents(f))
  }

  /**
   * A monthly status set holds exactly the stripped text of the file's lines that are neither
   * blank nor, once stripped, comments; a missing file reads as the empty set.
   */
  lemma ReadKeywordSetMembers(f: File, x: string)
    ensures x in ReadKeywordSet(f) <==> exists l :: l in Contents(f) && !IsBlank(l) && Strip(l) == x && !IsComment(x)
    ensures f.None? ==> ReadKeywordSet(f) == {}
  {
    NonBlankStrippedMembers(Contents(f), x);
  }

  /** A weekly status set holds exactly the stripped text of the file's non-blank lines. */
  lemma ReadTopicSetMembers(f: File, x: string)
    ensures x in ReadTopicSet(f) <==> exists l :: l in Contents(f) && !IsBlank(l) && Strip(l) == x
    ensures f.None? ==> ReadTopicSet(f) == {}
  {
    NonBlankStrippedMembers(Contents(f), x);
  }

  /** `write_set`: the file holds the set's items, sorted, each on one line. */
  ghost predicate Lists(f: File, s: set<string>)
  {
    f.Some? && Sorted(f.value) && Distinct(f.value) && forall y :: y in f.value <==> y in s
  }

  /** What `write_set` writes is fixed by the set: two files listing the same set are the same. */
  lemma ListsUnique(f: File, g: File, s: set<string>)
    requires Lists(f, s) && Lists(g, s)
    ensures f == g
  {
    SortedDistinctUnique(f.value, g.value);
  }

  /** A keyword as a monthly status file can hold it: clean and not a comment. */
  predicate Keyword(x: string)
  {
    Clean(x) && !IsComment(x)
  }

  /** Writing a monthly status set and reading it back gives the same set. */
  lemma KeywordSetRoundTrip(f: File, s: set<string>)
    requires Lists(f, s) && forall x :: x in s ==> Keyword(x)
    ensures ReadKeywordSet(f) == s
  {
    forall i | 0 <= i < |f.value| ensures Clean(f.value[i]) {
      assert f.value[i] in f.value;
    }
    NonBlankStrippedClean(f.value);
  }

  /** Writing a weekly status set and reading it back gives the same set. */
  lemma TopicSetRoundTrip(f: File, s: set<string>)
    requires Lists(f, s) && forall x :: x in s ==> Clean(x)
    ensures ReadTopicSet(f) == s
  {
    forall i | 0 <= i < |f.value| ensures Clean(f.value[i]) {
      assert f.value[i] in f.value;
    }
    NonBlankStrippedClean(f.value);
  }

  /** Everything the monthly reader returns can be written and read back. */
  lemma ReadKeywordSetKeywords(f: File)
    ensures forall x :: x in ReadKeywordSet(f) ==> Keyword(x)
  {
    NonBlankStrippedAllClean(Contents(f));
  }

  // ---------------------------------------------------------------------------------------
  // The reconciliation as set algebra

  /** The four status sets. */
  datatype Queues = Queues(unpro: set<string>, processing: set<string>, processed: set<string>, failed: set<string>)

  /** The keywords some status set already holds. */
  function Tracked(q: Queues): set<string>
  {
    q.unpro + q.processing + q.processed + q.failed
  }

  /** Master keywords that no status set holds: step 1 queues them. */
  function NewKeywords(q: Queues, master: set<string>): set<string>
  {
    master - Tracked(q)
  }

  /** Processed keywords that left the master and are not being processed: removed, their data deleted. */
  function Evicted(processed: set<string>, master: set<string>, processing: set<string>): set<string>
  {
    processed - master - processing
  }

  /** The status sets after a sync: steps 1 and 2 of both sync scripts; processing is never written. */
  function Reconciled(q: Queues, master: set<string>): Queues
  {
    Queues(
      (q.unpro + NewKeywords(q, master)) * master,
      q.processing,
      q.processed - Evicted(q.processed, master, q.processing),
      q.failed * master)
  }

  /**
   * After a sync: unprocessed and failed hold only master keywords; a processed keyword outside
   * the master survives exactly when it is still in processing; every master keyword is in some
   * status set; a master keyword keeps the set it was in (it is only added to unprocessed when it
   * was in none); and the keywords added are exactly the master keywords in no set.
   */
  lemma ReconciledSpec(q: Queues, master: set<string>)
    ensures var r := Reconciled(q, master);
      && r.unpro <= master && r.failed <= master
      && r.processing == q.processing
      && (forall x :: x in q.processed && x !in master ==> (x in r.processed <==> x in q.processing))
      && r.processed - master <= r.processing
      && master <= Tracked(r)
      && (forall x :: x in master && x in q.unpro ==> x in r.unpro)
      && (forall x :: x in master && x in q.processed ==> x in r.processed)
      && (forall x :: x in master && x in q.failed ==> x in r.failed)
      && (forall x :: x in r.unpro && x !in q.unpro <==> x in NewKeywords(q, master))
  {
  }

  /** A second sync with the same master changes nothing: the reconciled sets are a fixed point. */
  lemma {:induction false} ReconciledIdempotent(q: Queues, master: set<string>)
    ensures Reconciled(Reconciled(q, master), master) == Reconciled(q, master)
  {
    var r := Reconciled(q, master);
    assert NewKeywords(r, master) == {} by {
      forall x | x in master ensures x in Tracked(r) {
        if x !in Tracked(q) {
          assert x in r.unpro;
        }
      }
    }
    assert Evicted(r.processed, master, r.processing) == {};
  }

  // ---------------------------------------------------------------------------------------
  // The loops that carry the reconciliation out

  /** `xs` lists the set `s`: each element once. */
  ghost predicate Enumerates(xs: seq<string>, s: set<string>)
  {
    Distinct(xs) && forall y :: y in xs <==> y in s
  }

  /**
   * Step 1 (sync_master_and_cleanup.py, lines 111-116; sync_master_weekly.py, lines 129-133): for
   * each master keyword in the order `order` lists them, add it to unprocessed when no set holds
   * it. `added` lists those keywords.
   */
  method AddNew(order: seq<string>, q: Queues, master: set<string>) returns (unpro: set<string>, added: seq<string>)
    requires Enumerates(order, master)
    ensures unpro == q.unpro + NewKeywords(q, master)
    ensures Enumerates(added, NewKeywords(q, master))
  {
    unpro := q.unpro;
    added := [];
    for n := 0 to |order|
      invariant unpro == q.unpro + (set x | x in order[..n] && x !in Tracked(q))
      invariant Distinct(added)
      invariant forall y :: y in added <==> y in order[..n] && y !in Tracked(q)
    {
      var kw := order[n];
      assert forall y :: y in order[..n + 1] <==> y in order[..n] || y == kw by {
        assert order[..n + 1] == order[..n] + [kw];
      }
      if kw !in unpro && kw !in q.processing && kw !in q.processed && kw !in q.failed {
        assert kw !in order[..n];
        unpro := unpro + {kw};
        added := added + [kw];
      }
    }
    assert order[..|order|] == order;
  }

  /**
   * The removal loops of step 2 for unprocessed and failed (sync_master_and_cleanup.py, lines
   * 128-138; sync_master_weekly.py, lines 142-148): every element of `xs` outside the master is
   * removed, in the order `order` lists `xs`; `removed` lists them in that order.
   */
  method KeepInMaster(order: seq<string>, xs: set<string>, master: set<string>) returns (kept: set<string>, removed: seq<string>)
    requires Enumerates(order, xs)
    ensures kept == xs * master
    ensures Enumerates(removed, xs - master)
  {
    kept := xs;
    removed := [];
    for n := 0 to |order|
      invariant kept == xs - (set x | x in order[..n] && x !in master)
      invariant Distinct(removed)
      invariant forall y :: y in removed <==> y in order[..n] && y !in master
    {
      var kw := order[n];
      assert forall y :: y in order[..n + 1] <==> y in order[..n] || y == kw by {
        assert order[..n + 1] == order[..n] + [kw];
      }
      if kw !in master {
        assert kw !in order[..n];
        kept := kept - {kw};
        removed := removed + [kw];
      }
    }
    assert order[..|order|] == order;
  }

  /** `list(s)` of a set whose iteration order the model does not fix: some listing of it. */
  method ListSet(s: set<string>) returns (xs: seq<string>)
    ensures Enumerates(xs, s)
  {
    xs := [];
    var rest := s;
    while rest != {}
      invariant Distinct(xs)
      invariant rest <= s
      invariant forall y :: y in xs <==> y in s && y !in rest
      decreases rest
    {
      var x :| x in rest;
      xs := xs + [x];
      rest := rest - {x};
    }
  }
}

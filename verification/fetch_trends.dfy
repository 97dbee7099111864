/**
 * The original collector (fetch_trends.py): it reads the keyword list, picks a block of
 * keywords by rotating through the list every four hours, fetches each keyword and saves every
 * non-empty answer as a raw file named after the keyword's safe name and the time of the save.
 */
module FetchTrends {
  import opened Wrappers
  import opened Seqs
  import opened Text
  import opened Lines
  import opened Naming
  import opened Series
  import opened Provider

  // ---------------------------------------------------------------------------------------
  // Loading the keyword list

  /** A record of `csv.DictReader`: column name to field text. */
  type Record = map<string, string>

  /** The column `load_keywords` reads. */
  const KeywordColumn := "keyword"

  /** `r.get(key, '')`. */
  function Get(r: Record, key: string): string
  {
    if key in r then r[key] else ""
  }

  /** The `keyword` field of every record, as read. */
  function RawFields(rs: seq<Record>): (fs: seq<string>)
    ensures |fs| == |rs| && forall i :: 0 <= i < |rs| ==> fs[i] == Get(rs[i], KeywordColumn)
  {
    seq(|rs|, i requires 0 <= i < |rs| => Get(rs[i], KeywordColumn))
  }

  /** A field `load_keywords` keeps once stripped: non-empty and not starting with `#`. */
  predicate Accepted(kw: string)
  {
    kw != [] && !IsComment(kw)
  }

  /** The keywords `load_keywords` returns for the records `rs`: the accepted stripped fields, in file order. */
  function Keywords(rs: seq<Record>): seq<string>
  {
    Filter(StripAll(RawFields(rs)), Accepted)
  }

  /** A keyword is listed exactly when some record's stripped field is that keyword and is accepted. */
  lemma KeywordsMembers(rs: seq<Record>, x: string)
    ensures x in Keywords(rs) <==> exists i :: 0 <= i < |rs| && Strip(Get(rs[i], KeywordColumn)) == x && Accepted(x)
  {
    var fs := StripAll(RawFields(rs));
    FilterMembers(fs, Accepted);
    if x in fs {
      var i :| 0 <= i < |fs| && fs[i] == x;
    }
    if i :| 0 <= i < |rs| && Strip(Get(rs[i], KeywordColumn)) == x && Accepted(x) {
      assert fs[i] == x;
    }
  }

  /** Every keyword is stripped, non-empty and no comment: it can be written as a line and read back. */
  lemma KeywordsClean(rs: seq<Record>)
    ensures forall x :: x in Keywords(rs) ==> Clean(x) && !IsComment(x)
  {
    forall x | x in Keywords(rs) ensures Clean(x) && !IsComment(x) {
      KeywordsMembers(rs, x);
      var i :| 0 <= i < |rs| && Strip(Get(rs[i], KeywordColumn)) == x && Accepted(x);
      StripIdempotent(Get(rs[i], KeywordColumn));
    }
  }

  /** The list of a file is the list of its first records followed by that of the others: file order is kept. */
  lemma KeywordsAppend(rs: seq<Record>, rest: seq<Record>)
    ensures Keywords(rs + rest) == Keywords(rs) + Keywords(rest)
  {
    assert RawFields(rs + rest) == RawFields(rs) + RawFields(rest);
    StripAllAppend(RawFields(rs), RawFields(rest));
    FilterAppend(StripAll(RawFields(rs)), StripAll(RawFields(rest)), Accepted);
  }

  /** The list of a single record: its stripped field when it is accepted. */
  lemma KeywordsOne(r: Record)
    ensures Keywords([r]) == var kw := Strip(Get(r, KeywordColumn)); if Accepted(kw) then [kw] else []
  {
    assert StripAll(RawFields([r])) == [Strip(Get(r, KeywordColumn))];
  }

  /** The list of the first `i + 1` records: that of the first `i`, then the field of record `i` when accepted. */
  lemma KeywordsSnoc(rs: seq<Record>, i: nat)
    requires i < |rs|
    ensures Keywords(rs[..i + 1]) == Keywords(rs[..i]) + var kw := Strip(Get(rs[i], KeywordColumn)); if Accepted(kw) then [kw] else []
  {
    TakeSnoc(rs, i);
    KeywordsAppend(rs[..i], [rs[i]]);
    KeywordsOne(rs[i]);
  }

  /** `load_keywords` (lines 22-30): the loop over the records. */
  method LoadKeywords(rs: seq<Record>) returns (kws: seq<string>)
    ensures kws == Keywords(rs)
  {
    kws := [];
    for i := 0 to |rs|
      invariant kws == Keywords(rs[..i])
    {
      var kw := Strip(Get(rs[i], KeywordColumn));
      KeywordsSnoc(rs, i);
      if kw != [] && !IsComment(kw) {
        kws := kws + [kw];
      }
    }
    assert rs[..|rs|] == rs;
  }

  // ---------------------------------------------------------------------------------------
  // The rotating block

  /** The length of a slot in seconds. */
  const SlotSeconds := 4 * 3600

  /** `KEYWORDS_PER_RUN`. */
  const KeywordsPerRun := 4

  /** `int(time.time()) // (4 * 3600)` for a clock reading of `t` whole seconds. */
  function Slot(t: nat): nat
  {
    t / SlotSeconds
  }

  /** `(slot * k_per_run) % len(kws)`. */
  function BlockStart(slot: nat, k: nat, n: nat): (s: nat)
    requires n > 0
    ensures s < n
  {
    (slot * k) % n
  }

  /** The position in the list of the `i`-th keyword of the block. */
  function Position(slot: nat, k: nat, n: nat, i: nat): (p: nat)
    requires n > 0
    ensures p < n
  {
    (BlockStart(slot, k, n) + i) % n
  }

  /**
   * `select_block` (lines 32-41): `k` keywords, the `i`-th one at position `(start + i) % n` of
   * the list. The list must not be empty; `main` returns before calling it when it is (lines 64-66).
   */
  method SelectBlock(kws: seq<string>, k: nat, t: nat) returns (block: seq<string>)
    requires |kws| > 0
    ensures |block| == k
    ensures forall i :: 0 <= i < k ==> block[i] == kws[Position(Slot(t), k, |kws|, i)]
  {
    var slot := t / SlotSeconds;
    var start := (slot * k) % |kws|;
    block := [];
    for i := 0 to k
      invariant |block| == i
      invariant forall j :: 0 <= j < i ==> block[j] == kws[Position(slot, k, |kws|, j)]
    {
      block := block + [kws[(start + i) % |kws|]];
    }
  }

  /** A positive multiple of `n` is at least `n`. */
  lemma {:induction false} MulAtLeast(m: nat, n: nat)
    requires m >= 1
    ensures m * n >= n
  {
    if m > 1 {
      MulAtLeast(m - 1, n);
      assert m * n == (m - 1) * n + n;
    }
  }

  /** `x == q * n + r` with `0 <= r < n` fixes the quotient and the remainder. */
  lemma DivModUnique(x: int, n: int, q: int, r: int)
    requires n > 0 && 0 <= r < n && x == q * n + r
    ensures x / n == q && x % n == r
  {
    var m := q - x / n;
    assert x == (x / n) * n + x % n;
    assert m * n == x % n - r by {
      assert m * n == q * n - (x / n) * n;
    }
    if m >= 1 {
      MulAtLeast(m, n);
    }
  }

  /** Two numbers less than `n` apart have different remainders. */
  lemma SameRemainder(a: nat, b: nat, n: nat)
    requires n > 0 && a < b < a + n
    ensures a % n != b % n
  {
    var q := a / n;
    assert a == q * n + a % n;
    if b - a < n - a % n {
      DivModUnique(b, n, q, a % n + (b - a));
    } else {
      assert b == (q + 1) * n + (a % n + (b - a) - n);
      DivModUnique(b, n, q + 1, a % n + (b - a) - n);
    }
  }

  /** With no more keywords per run than in the list, a block never visits a position twice. */
  lemma BlockDistinct(slot: nat, k: nat, n: nat)
    requires 0 < n && k <= n
    ensures forall i, j :: 0 <= i < j < k ==> Position(slot, k, n, i) != Position(slot, k, n, j)
  {
    forall i, j | 0 <= i < j < k ensures Position(slot, k, n, i) != Position(slot, k, n, j) {
      var s := BlockStart(slot, k, n);
      SameRemainder(s + i, s + j, n);
    }
  }

  /** Adding a multiple of `n` does not change the remainder. */
  lemma ModShift(a: nat, q: nat, n: nat)
    requires n > 0
    ensures (q * n + a) % n == a % n
  {
    assert a == (a / n) * n + a % n;
    assert q * n + a == (q + a / n) * n + a % n;
    DivModUnique(q * n + a, n, q + a / n, a % n);
  }

  /** The block of slot `s + 1` begins at the position after the last one of slot `s`. */
  lemma NextBlockContinues(slot: nat, k: nat, n: nat)
    requires n > 0
    ensures BlockStart(slot + 1, k, n) == Position(slot, k, n, k)
  {
    var x := slot * k;
    assert (slot + 1) * k == x + k;
    assert x == (x / n) * n + x % n;
    ModShift(x % n + k, x / n, n);
    assert x + k == (x / n) * n + (x % n + k);
  }

  /** Four hours later the clock is in the next slot. */
  lemma SlotAdvances(t: nat)
    ensures Slot(t + SlotSeconds) == Slot(t) + 1
  {
    ModShift(t, 1, SlotSeconds);
    assert t + SlotSeconds == (t / SlotSeconds + 1) * SlotSeconds + t % SlotSeconds;
  }

  // ---------------------------------------------------------------------------------------
  // One run

  /** A raw file the run saved. */
  datatype Saved = Saved(name: string, rows: Series)

  /** The `strftime("%Y%m%d_%H%M")` stamp of a save: date and time of day. */
  datatype Stamp = Stamp(date: string, time: string)

  /**
   * `safe_fetch_keyword` (lines 43-56) as the run sees it: nothing when the provider raises or
   * answers with an empty frame, else the rows.
   */
  function Fetched(r: Response): (rows: Option<Series>)
    ensures rows.Some? <==> r.Frame? && r.rows != []
  {
    if r.Frame? && r.rows != [] then Some(r.rows) else None
  }

  /** The files the loop of `main` (lines 75-88) saves for the first keywords of the block. */
  function SavedFiles(block: seq<string>, answers: seq<Response>, stamps: seq<Stamp>): (out: seq<Saved>)
    requires |answers| == |block| == |stamps|
    ensures |out| <= |block|
  {
    if block == [] then []
    else
      var n := |block| - 1;
      SavedFiles(block[..n], answers[..n], stamps[..n])
        + (match Fetched(answers[n])
           case Some(rows) => [Saved(RunFileName(SafeKw(block[n]), stamps[n].date, stamps[n].time), rows)]
           case None => [])
  }

  /**
   * A file is saved for a keyword of the block exactly when its answer has rows, under the name of
   * that keyword and the stamp of that save; when the stamps hold no `_`, the merge scripts read
   * every saved file back as its keyword's safe name, and the keyword's glob lists it.
   */
  lemma {:induction false} SavedFilesSpec(block: seq<string>, answers: seq<Response>, stamps: seq<Stamp>)
    requires |answers| == |block| == |stamps|
    ensures forall f :: f in SavedFiles(block, answers, stamps) <==> exists i :: (0 <= i < |block| &&
      Fetched(answers[i]) == Some(f.rows) && f.name == RunFileName(SafeKw(block[i]), stamps[i].date, stamps[i].time))
  {
    if block != [] {
      var n := |block| - 1;
      SavedFilesSpec(block[..n], answers[..n], stamps[..n]);
    }
  }

  /**
   * Every saved file name is found again by name under its keyword by the monthly merge and sync
   * scripts, when the keyword holds no glob wildcard (the folders they list are another matter).
   */
  lemma SavedFilesFound(block: seq<string>, answers: seq<Response>, stamps: seq<Stamp>, i: nat)
    requires |answers| == |block| == |stamps| && i < |block|
    requires '_' !in stamps[i].date && '_' !in stamps[i].time
    requires GlobLiteral(block[i])
    ensures var name := RunFileName(SafeKw(block[i]), stamps[i].date, stamps[i].time);
      FileKey(name) == SafeKw(block[i]) && SyncKey(name) == SafeKw(block[i]) && MatchesKeywordGlob(name, SafeKw(block[i]))
  {
    RunFileKeys(SafeKw(block[i]), stamps[i].date, stamps[i].time);
    SafeKwGlobLiteral(block[i]);
    RunFileMatches(SafeKw(block[i]), stamps[i].date, stamps[i].time);
  }

  /** How a run ends. */
  datatype Outcome = NoKeywordFile | NoKeywords | Ran(block: seq<string>, saved: seq<Saved>)

  /**
   * `main` (lines 58-91) for a clock reading `t`, the provider's answers to the block's fetches
   * and the stamps of their saves: without the keyword file or any keyword it returns at once;
   * otherwise it fetches the block of `KEYWORDS_PER_RUN` keywords and saves every non-empty answer.
   */
  method Run(file: Option<seq<Record>>, t: nat, answers: seq<Response>, stamps: seq<Stamp>) returns (out: Outcome)
    requires |answers| == |stamps| == KeywordsPerRun
    ensures file.None? ==> out == NoKeywordFile
    ensures file.Some? && Keywords(file.value) == [] ==> out == NoKeywords
    ensures file.Some? && Keywords(file.value) != [] ==>
      var kws := Keywords(file.value);
      && out.Ran?
      && |out.block| == KeywordsPerRun
      && (forall i :: 0 <= i < KeywordsPerRun ==> out.block[i] == kws[Position(Slot(t), KeywordsPerRun, |kws|, i)])
      && out.saved == SavedFiles(out.block, answers, stamps)
  {
    if file.None? {
      return NoKeywordFile;
    }
    var kws := LoadKeywords(file.value);
    if kws == [] {
      return NoKeywords;
    }
    var block := SelectBlock(kws, KeywordsPerRun, t);
    var saved := SaveBlock(block, answers, stamps);
    out := Ran(block, saved);
  }

  /** The loop of `main` (lines 75-88): every non-empty answer is saved, in block order. */
  method SaveBlock(block: seq<string>, answers: seq<Response>, stamps: seq<Stamp>) returns (saved: seq<Saved>)
    requires |answers| == |block| == |stamps|
    ensures saved == SavedFiles(block, answers, stamps)
  {
    saved := [];
    for i := 0 to |block|
      invariant saved == SavedFiles(block[..i], answers[..i], stamps[..i])
    {
      TakeTake(block, i, i + 1);
      TakeTake(answers, i, i + 1);
      TakeTake(stamps, i, i + 1);
      var df := Fetched(answers[i]);
      if df.Some? {
        saved := saved + [Saved(RunFileName(SafeKw(block[i]), stamps[i].date, stamps[i].time), df.value)];
      }
    }
    TakeAll(block);
    TakeAll(answers);
    TakeAll(stamps);
  }
}

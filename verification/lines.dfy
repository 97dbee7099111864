/**
 * Keyword files as the scripts read and rewrite them: a file either does not exist or holds a
 * list of lines (without their line terminators). The list comprehensions the scripts use to read
 * and filter those lines are defined here, each with what it keeps and what it drops.
 */
module Lines {
  import opened Wrappers
  import opened Seqs
  import opened Text

  /** A text file: `None` when it does not exist, otherwise its lines. */
  type File = Option<seq<string>>

  /** The lines a reader sees; a missing file reads as no lines. */
  function Contents(f: File): seq<string>
  {
    if f.Some? then f.value else []
  }

  /** `open(path, "a").write(line + "\n")`: appends one line, creating the file when missing. */
  function Appended(f: File, line: string): File
  {
    Some(Contents(f) + [line])
  }

  /** A keyword as the readers produce it: non-empty and with no surrounding whitespace. */
  predicate Clean(x: string)
  {
    x != [] && Strip(x) == x
  }

  /** `[l for l in lines if keep(l)]`: the lines `keep` accepts, unchanged and in order. */
  function Filter(ls: seq<string>, keep: string -> bool): (r: seq<string>)
    ensures |r| <= |ls|
    ensures forall i :: 0 <= i < |r| ==> keep(r[i])
  {
    if ls == [] then [] else (if keep(ls[0]) then [ls[0]] else []) + Filter(ls[1..], keep)
  }

  /** A line survives the filter exactly when it is in the file and accepted. */
  lemma {:induction false} FilterMembers(ls: seq<string>, keep: string -> bool)
    ensures forall x :: x in Filter(ls, keep) <==> x in ls && keep(x)
  {
    if ls != [] {
      FilterMembers(ls[1..], keep);
      assert forall x :: x in ls <==> x == ls[0] || x in ls[1..];
    }
  }

  /** Filtering a file in two pieces filters the pieces one after the other. */
  lemma {:induction false} FilterAppend(a: seq<string>, b: seq<string>, keep: string -> bool)
    ensures Filter(a + b, keep) == Filter(a, keep) + Filter(b, keep)
  {
    if a == [] {
      assert a + b == b;
    } else {
      assert (a + b)[0] == a[0];
      assert (a + b)[1..] == a[1..] + b;
      FilterAppend(a[1..], b, keep);
    }
  }

  /** A filter that accepts every line keeps the file as it is. */
  lemma {:induction false} FilterAll(ls: seq<string>, keep: string -> bool)
    requires forall i :: 0 <= i < |ls| ==> keep(ls[i])
    ensures Filter(ls, keep) == ls
  {
    if ls != [] {
      FilterAll(ls[1..], keep);
    }
  }

  /** The filter is empty exactly when no line is accepted. */
  lemma FilterEmpty(ls: seq<string>, keep: string -> bool)
    ensures Filter(ls, keep) == [] <==> forall i :: 0 <= i < |ls| ==> !keep(ls[i])
  {
    FilterMembers(ls, keep);
    if Filter(ls, keep) != [] {
      assert Filter(ls, keep)[0] in Filter(ls, keep);
    } else {
      forall i | 0 <= i < |ls| ensures !keep(ls[i]) {
        assert ls[i] in ls;
      }
    }
  }

  /** The index of the first accepted line, or `|ls|` when there is none. */
  function FirstKept(ls: seq<string>, keep: string -> bool): (j: nat)
    ensures j <= |ls|
    ensures forall i :: 0 <= i < j ==> !keep(ls[i])
    ensures j < |ls| ==> keep(ls[j])
  {
    if ls == [] || keep(ls[0]) then 0 else 1 + FirstKept(ls[1..], keep)
  }

  /**
   * The filter keeps the first accepted line first: a non-empty result starts with the first
   * accepted line and continues with the filtered lines after it.
   */
  lemma {:induction false} FilterFirst(ls: seq<string>, keep: string -> bool)
    requires Filter(ls, keep) != []
    ensures var j := FirstKept(ls, keep);
      j < |ls| && Filter(ls, keep) == [ls[j]] + Filter(ls[j + 1..], keep)
  {
    if !keep(ls[0]) {
      var tail := ls[1..];
      assert Filter(ls, keep) == Filter(tail, keep);
      FilterFirst(tail, keep);
      assert tail[FirstKept(tail, keep) + 1..] == ls[FirstKept(ls, keep) + 1..];
    }
  }

  /** `[l for l in lines if l.strip()]`: the non-blank lines, unchanged, in order. */
  function NonBlank(ls: seq<string>): (r: seq<string>)
    ensures forall x :: x in r <==> x in ls && !IsBlank(x)
  {
    FilterMembers(ls, l => !IsBlank(l));
    Filter(ls, l => !IsBlank(l))
  }

  /** `[l for l in lines if l != kw]`: the lines other than `kw`, in order. */
  function Without(ls: seq<string>, kw: string): (r: seq<string>)
    ensures forall x :: x in r <==> x in ls && x != kw
  {
    FilterMembers(ls, l => l != kw);
    Filter(ls, l => l != kw)
  }

  /** `[l for l in lines if l.strip() != kw]`: the lines that do not strip to `kw`, unchanged, in order. */
  function KeepUnlessStripsTo(ls: seq<string>, kw: string): seq<string>
  {
    Filter(ls, l => Strip(l) != kw)
  }

  /** `KeepUnlessStripsTo` keeps exactly the lines that do not strip to the keyword. */
  lemma KeepUnlessStripsToMembers(ls: seq<string>, kw: string)
    ensures forall x :: x in KeepUnlessStripsTo(ls, kw) <==> x in ls && Strip(x) != kw
  {
    FilterMembers(ls, l => Strip(l) != kw);
  }

  /** `[l.strip() for l in lines]`. */
  function StripAll(ls: seq<string>): (r: seq<string>)
    ensures |r| == |ls| && forall i :: 0 <= i < |r| ==> r[i] == Strip(ls[i])
  {
    seq(|ls|, i requires 0 <= i < |ls| => Strip(ls[i]))
  }

  lemma StripAllAppend(a: seq<string>, b: seq<string>)
    ensures StripAll(a + b) == StripAll(a) + StripAll(b)
  {
  }

  /** `[l.strip() for l in lines if l.strip()]`: the non-blank lines, stripped, in order. */
  function NonBlankStripped(ls: seq<string>): (r: seq<string>)
    ensures |r| <= |ls|
  {
    StripAll(Filter(ls, l => !IsBlank(l)))
  }

  /** The first line `NonBlankStripped` yields is clean. */
  lemma NonBlankStrippedHeadClean(ls: seq<string>)
    requires NonBlankStripped(ls) != []
    ensures Clean(NonBlankStripped(ls)[0])
  {
    NonBlankStrippedAllClean(ls);
  }

  /** Every line `NonBlankStripped` yields is clean. */
  lemma NonBlankStrippedAllClean(ls: seq<string>)
    ensures var r := NonBlankStripped(ls); forall i :: 0 <= i < |r| ==> Clean(r[i])
  {
    var kept := Filter(ls, l => !IsBlank(l));
    forall i | 0 <= i < |kept| ensures Clean(Strip(kept[i])) {
      StripIdempotent(kept[i]);
    }
  }

  /** Stripping every kept line: an item is produced exactly when some kept line strips to it. */
  lemma StripAllMembers(kept: seq<string>, x: string)
    ensures x in StripAll(kept) <==> exists l :: l in kept && Strip(l) == x
  {
    if x in StripAll(kept) {
      var i :| 0 <= i < |kept| && StripAll(kept)[i] == x;
      assert kept[i] in kept;
    }
    if l :| l in kept && Strip(l) == x {
      var i :| 0 <= i < |kept| && kept[i] == l;
      assert StripAll(kept)[i] == x;
    }
  }

  /** An item is read exactly when some non-blank line strips to it. */
  lemma NonBlankStrippedMembers(ls: seq<string>, x: string)
    ensures x in NonBlankStripped(ls) <==> exists l :: l in ls && !IsBlank(l) && Strip(l) == x
  {
    var kept := Filter(ls, l => !IsBlank(l));
    assert NonBlankStripped(ls) == StripAll(kept);
    FilterMembers(ls, l => !IsBlank(l));
    StripAllMembers(kept, x);
    if l :| l in ls && !IsBlank(l) && Strip(l) == x {
      assert l in kept;
    }
  }

  /** Lines that are already clean read back unchanged: a rewritten queue reads as what was written. */
  lemma NonBlankStrippedClean(ls: seq<string>)
    requires forall i :: 0 <= i < |ls| ==> Clean(ls[i])
    ensures NonBlankStripped(ls) == ls
  {
    FilterAll(ls, l => !IsBlank(l));
  }

  /** After taking the first of some clean lines, the others read back as they are. */
  lemma CleanRest(read: seq<string>)
    requires read != []
    requires forall i :: 0 <= i < |read| ==> Clean(read[i])
    ensures [read[0]] + NonBlankStripped(read[1..]) == read
  {
    forall i | 0 <= i < |read[1..]| ensures Clean(read[1..][i]) {
      assert read[1..][i] == read[i + 1];
    }
    NonBlankStrippedClean(read[1..]);
    HeadTail(read);
  }

  /**
   * `[l.strip() for l in lines if l.strip() != kw]`: every line, stripped, except those that strip
   * to `kw`; blank lines stay, as empty lines.
   */
  function StrippedExcept(ls: seq<string>, kw: string): (r: seq<string>)
    ensures |r| <= |ls|
    ensures forall i :: 0 <= i < |r| ==> r[i] != kw && Strip(r[i]) == r[i]
  {
    var kept := Filter(ls, l => Strip(l) != kw);
    forall i | 0 <= i < |kept| ensures Strip(Strip(kept[i])) == Strip(kept[i]) {
      StripIdempotent(kept[i]);
    }
    StripAll(kept)
  }

  /** Every other line survives, stripped: an item is kept exactly when some line strips to it. */
  lemma StrippedExceptMembers(ls: seq<string>, kw: string, x: string)
    ensures x in StrippedExcept(ls, kw) <==> x != kw && exists l :: l in ls && Strip(l) == x
  {
    var kept := Filter(ls, l => Strip(l) != kw);
    assert StrippedExcept(ls, kw) == StripAll(kept);
    FilterMembers(ls, l => Strip(l) != kw);
    StripAllMembers(kept, x);
    if l :| l in ls && Strip(l) == x && x != kw {
      assert l in kept;
    }
  }
}

/**
 * The keyword queue: four line files (unprocessed, processing, processed, failed) that every
 * fetcher edits in place. A run pops a keyword off `unprocessed`, appends it to `processing`,
 * and at the end moves it to `processed` or `failed`. The three fetchers read and rewrite the
 * files in slightly different ways (stripping, blank lines, comment lines); each variant is a
 * method here, stated against the line filters of `Lines`.
 */
module Queue {
  import opened Wrappers
  import opened Text
  import opened Lines

  /** The list a keyword is moved to at the end of a run. */
  datatype Status = Processed | Failed

  /** A line the monthly fetcher accepts as a keyword: not blank and not a `#` comment once stripped. */
  predicate Valid(l: string)
  {
    !IsBlank(l) && !IsComment(Strip(l))
  }

  /**
   * The scan of `pop_first_unprocessed` (fetch_one_keyword.py, lines 52-58): the index of the
   * first valid line, if there is one.
   */
  method FindFirstValid(ls: seq<string>) returns (idx: Option<nat>)
    ensures idx.None? <==> forall i :: 0 <= i < |ls| ==> !Valid(ls[i])
    ensures idx.Some? ==>
      idx.value < |ls| && Valid(ls[idx.value]) && forall i :: 0 <= i < idx.value ==> !Valid(ls[i])
  {
    idx := None;
    for i := 0 to |ls|
      invariant forall j :: 0 <= j < i ==> !Valid(ls[j])
    {
      var s := Strip(ls[i]);
      if s != [] && !IsComment(s) {
        idx := Some(i);
        return;
      }
      assert !Valid(ls[i]);
    }
  }

  /** The queue directory of one pipeline (monthly or weekly). */
  class KeywordFiles {
    var unprocessed: File
    var processing: File
    var processed: File
    var failed: File

    constructor (unprocessed: File, processing: File, processed: File, failed: File)
      ensures this.unprocessed == unprocessed && this.processing == processing
      ensures this.processed == processed && this.failed == failed
    {
      this.unprocessed := unprocessed;
      this.processing := processing;
      this.processed := processed;
      this.failed := failed;
    }

    /** `append_line(target, line)`: the target gains the line at its end; nothing else changes. */
    method AppendTo(t: Status, line: string)
      modifies this
      ensures t == Processed ==> processed == Appended(old(processed), line)
      ensures t == Failed ==> failed == Appended(old(failed), line)
      ensures unprocessed == old(unprocessed) && processing == old(processing)
      ensures t == Processed ==> failed == old(failed)
      ensures t == Failed ==> processed == old(processed)
    {
      match t
      case Processed => processed := Appended(processed, line);
      case Failed => failed := Appended(failed, line);
    }

    /** `append_line(PROCING, line)`. */
    method MarkProcessing(line: string)
      modifies this
      ensures processing == Appended(old(processing), line)
      ensures unprocessed == old(unprocessed) && processed == old(processed) && failed == old(failed)
    {
      processing := Appended(processing, line);
    }

    /**
     * `pop_keyword` of the per-keyword weekly fetcher (fetch_weekly_one_keyword.py, lines 51-63):
     * the keywords are the stripped non-blank lines; with none (or no file) nothing changes,
     * otherwise the first is returned and the file is rewritten with the others, one per line.
     */
    method PopKeyword() returns (kw: Option<string>)
      modifies this
      ensures var read := NonBlankStripped(Contents(old(unprocessed)));
        && (read == [] ==> kw == None && unprocessed == old(unprocessed))
        && (read != [] ==> kw == Some(read[0]) && unprocessed == Some(read[1..]))
      ensures processing == old(processing) && processed == old(processed) && failed == old(failed)
    {
      if unprocessed.None? {
        return None;
      }
      var lines := NonBlankStripped(unprocessed.value);
      if lines == [] {
        return None;
      }
      kw := Some(lines[0]);
      unprocessed := Some(lines[1..]);
    }

    /**
     * `save_status_move` of the per-keyword weekly fetcher (lines 66-74): when the processing
     * file exists it is rewritten with every line stripped, dropping those that strip to the
     * keyword; then the keyword is appended to the target as given.
     */
    method SaveStatusMove(kw: string, t: Status)
      modifies this
      ensures processing == (if old(processing).Some? then Some(StrippedExcept(old(processing).value, kw)) else None)
      ensures t == Processed ==> processed == Appended(old(processed), kw)
      ensures t == Failed ==> failed == Appended(old(failed), kw)
      ensures unprocessed == old(unprocessed)
      ensures t == Processed ==> failed == old(failed)
      ensures t == Failed ==> processed == old(processed)
    {
      if processing.Some? {
        processing := Some(StrippedExcept(processing.value, kw));
      }
      AppendTo(t, kw);
    }

    /**
     * `pop_keyword` of the one-window weekly fetcher (fetch_weekly_one_window.py, lines 45-59):
     * the non-blank lines, kept as they are; with none nothing changes, otherwise the first is
     * returned unstripped and the file is rewritten with the other non-blank lines.
     */
    method PopLine() returns (kw: Option<string>)
      modifies this
      ensures var read := NonBlank(Contents(old(unprocessed)));
        && (read == [] ==> kw == None && unprocessed == old(unprocessed))
        && (read != [] ==> kw == Some(read[0]) && unprocessed == Some(read[1..]))
      ensures processing == old(processing) && processed == old(processed) && failed == old(failed)
    {
      if unprocessed.None? {
        return None;
      }
      var lines := NonBlank(unprocessed.value);
      if lines == [] {
        return None;
      }
      kw := Some(lines[0]);
      unprocessed := Some(lines[1..]);
    }

    /**
     * `save_status_move` of the one-window weekly fetcher (lines 61-68): the existing processing
     * file keeps its non-blank lines that differ from the keyword exactly; the keyword is
     * appended to the target as given.
     */
    method MoveLine(kw: string, t: Status)
      modifies this
      ensures processing == (if old(processing).Some? then Some(Without(NonBlank(old(processing).value), kw)) else None)
      ensures t == Processed ==> processed == Appended(old(processed), kw)
      ensures t == Failed ==> failed == Appended(old(failed), kw)
      ensures unprocessed == old(unprocessed)
      ensures t == Processed ==> failed == old(failed)
      ensures t == Failed ==> processed == old(processed)
    {
      if processing.Some? {
        processing := Some(Without(NonBlank(processing.value), kw));
      }
      AppendTo(t, kw);
    }

    /**
     * `pop_first_unprocessed` of the monthly fetcher (fetch_one_keyword.py, lines 45-65): the
     * first valid line, stripped, is the keyword, and only that line is removed; comments, blank
     * lines and everything after it are written back in order. With no file or no valid line
     * nothing changes.
     */
    method PopFirstUnprocessed() returns (kw: Option<string>, ghost idx: nat)
      modifies this
      ensures kw.None? ==> (
        && unprocessed == old(unprocessed)
        && forall i :: 0 <= i < |Contents(old(unprocessed))| ==> !Valid(Contents(old(unprocessed))[i]))
      ensures kw.Some? ==> old(unprocessed).Some? && var ls := old(unprocessed).value;
        && idx < |ls| && Valid(ls[idx])
        && (forall i :: 0 <= i < idx ==> !Valid(ls[i]))
        && kw.value == Strip(ls[idx])
        && unprocessed == Some(ls[..idx] + ls[idx + 1..])
      ensures processing == old(processing) && processed == old(processed) && failed == old(failed)
    {
      idx := 0;
      if unprocessed.None? {
        return None, idx;
      }
      var ls := unprocessed.value;
      var found := FindFirstValid(ls);
      if found.None? {
        return None, idx;
      }
      var i := found.value;
      idx := i;
      kw := Some(Strip(ls[i]));
      unprocessed := Some(ls[..i] + ls[i + 1..]);
    }

    /**
     * `move_from_processing_to` of the monthly fetcher (fetch_one_keyword.py, lines 67-75, with
     * `append_line` of lines 41-43): an existing processing file loses every line that strips to
     * the keyword and keeps the others unchanged; the target gains the stripped keyword.
     */
    method MoveFromProcessingTo(t: Status, kw: string)
      modifies this
      ensures processing == (if old(processing).Some? then Some(KeepUnlessStripsTo(old(processing).value, kw)) else None)
      ensures t == Processed ==> processed == Appended(old(processed), Strip(kw))
      ensures t == Failed ==> failed == Appended(old(failed), Strip(kw))
      ensures unprocessed == old(unprocessed)
      ensures t == Processed ==> failed == old(failed)
      ensures t == Failed ==> processed == old(processed)
    {
      var remaining := if processing.Some? then Some(KeepUnlessStripsTo(processing.value, kw)) else None;
      processing := remaining;
      AppendTo(t, Strip(kw));
    }
  }

  /**
   * A popped per-keyword weekly queue reads back as the keywords after the popped one: the
   * popped keyword followed by the rewritten file is exactly what was read before.
   */
  lemma PopKeywordConserves(before: seq<string>)
    requires NonBlankStripped(before) != []
    ensures var read := NonBlankStripped(before);
      [read[0]] + NonBlankStripped(read[1..]) == read
  {
    NonBlankStrippedAllClean(before);
    CleanRest(NonBlankStripped(before));
  }

  /** The popped per-keyword weekly keyword is the first non-blank line of the file, stripped. */
  lemma PopKeywordIsFirstLine(before: seq<string>)
    requires NonBlankStripped(before) != []
    ensures exists j :: (
      && 0 <= j < |before| && !IsBlank(before[j])
      && (forall i :: 0 <= i < j ==> IsBlank(before[i]))
      && NonBlankStripped(before)[0] == Strip(before[j]))
  {
    var kept := Filter(before, l => !IsBlank(l));
    FilterFirst(before, l => !IsBlank(l));
    var j := FirstKept(before, l => !IsBlank(l));
    assert NonBlankStripped(before)[0] == StripAll(kept)[0];
    assert !IsBlank(before[j]) && forall i :: 0 <= i < j ==> IsBlank(before[i]);
  }

  /** The line removed by the monthly pop is put back where it was: nothing else is lost or moved. */
  lemma PopFirstRestores(ls: seq<string>, idx: nat)
    requires idx < |ls|
    ensures var rest := ls[..idx] + ls[idx + 1..];
      |rest| == |ls| - 1 && rest[..idx] + [ls[idx]] + rest[idx..] == ls
  {
    var rest := ls[..idx] + ls[idx + 1..];
    assert rest[..idx] == ls[..idx];
    assert rest[idx..] == ls[idx + 1..];
  }

  /**
   * Moving a keyword takes back the processing line the run appended for it (the monthly
   * variant): the processing file ends as it was before the run, minus the keyword's lines.
   */
  lemma MoveUndoesMark(ls: seq<string>, kw: string)
    requires Strip(kw) == kw
    ensures KeepUnlessStripsTo(ls + [kw], kw) == KeepUnlessStripsTo(ls, kw)
  {
    FilterAppend(ls, [kw], l => Strip(l) != kw);
    assert Filter([kw], l => Strip(l) != kw) == [];
  }

  /** The same for the per-keyword weekly variant, which also strips every line it keeps. */
  lemma SaveStatusMoveUndoesMark(ls: seq<string>, kw: string)
    requires Strip(kw) == kw
    ensures StrippedExcept(ls + [kw], kw) == StrippedExcept(ls, kw)
  {
    FilterAppend(ls, [kw], l => Strip(l) != kw);
    assert Filter([kw], l => Strip(l) != kw) == [];
  }

  /** The same for the one-window weekly variant, which compares lines exactly. */
  lemma MoveLineUndoesMark(ls: seq<string>, kw: string)
    ensures Without(NonBlank(ls + [kw]), kw) == Without(NonBlank(ls), kw)
  {
    FilterAppend(ls, [kw], l => !IsBlank(l));
    FilterAppend(NonBlank(ls), NonBlank([kw]), l => l != kw);
    assert Filter(NonBlank([kw]), l => l != kw) == [];
  }
}

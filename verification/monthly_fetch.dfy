/**
 * The monthly fetcher, `script/fetch_one_keyword.py`. A run pops the first valid keyword of the
 * monthly queue, marks it as processing, fetches its whole history (2015-01-01 to the end of the
 * previous month) with up to five attempts and exponential backoff, saves the frame under the
 * keyword's safe name, and moves the keyword to `processed`, or to `failed` when the fetch gives
 * no frame.
 */
module Monthly {
  import opened Wrappers
  import opened Calendar
  import opened Series
  import opened Provider
  import opened Text
  import opened Lines
  import opened Queue
  import opened Naming

  const MaxRetries := 5
  const InitialBackoff := 60

  /** The first day of the requested history, `START_DATE`. */
  const HistoryStart := Date(2015, 1, 1)

  /** `TIMEFRAME` (lines 25-35): from 2015-01-01 to the last day of the month before `today`. */
  function Timeframe(today: Date): (r: (Date, Date))
    requires ValidDate(today)
    ensures r.0 == HistoryStart && ValidDate(r.1)
    ensures NextDay(r.1) == Date(today.year, today.month, 1)
  {
    (HistoryStart, LastDayOfPreviousMonth(today))
  }

  /** `2 ** n`. */
  function Pow2(n: nat): (r: nat)
    ensures r >= 1
  {
    if n == 0 then 1 else 2 * Pow2(n - 1)
  }

  /** What `fetch_keyword` reports along with its frame. */
  datatype FetchStatus = Ok | EmptyAnswer | ErrorFinal(err: string)

  /**
   * `fetch_keyword` (lines 77-101): up to five attempts. A frame ends the loop, an empty one as
   * "empty"; a raised attempt sleeps 60 seconds doubled per earlier attempt, except the fifth,
   * which ends the loop with "error_final" and the error's text. `sleeps` are the sleeps taken.
   */
  method FetchKeyword(answers: seq<Response>) returns (df: Option<Series>, status: FetchStatus, sleeps: seq<nat>)
    requires |answers| == MaxRetries
    ensures var k := FirstOk(answers, Answered);
      && (k < MaxRetries && answers[k].rows == [] ==> df == None && status == EmptyAnswer)
      && (k < MaxRetries && answers[k].rows != [] ==> df == Some(answers[k].rows) && status == Ok)
      && (k == MaxRetries ==> df == None && status == ErrorFinal(answers[MaxRetries - 1].msg))
      && |sleeps| == (if k < MaxRetries then k else MaxRetries - 1)
    ensures df.Some? <==> status == Ok
    ensures forall i :: 0 <= i < |sleeps| ==> sleeps[i] == InitialBackoff * Pow2(i)
  {
    sleeps := [];
    var attempt := 1;
    // The loop always returns by the fifth attempt: the "unknown" result after it is never reached.
    while true
      invariant 1 <= attempt <= MaxRetries
      invariant attempt - 1 <= FirstOk(answers, Answered)
      invariant |sleeps| == attempt - 1
      invariant forall i :: 0 <= i < |sleeps| ==> sleeps[i] == InitialBackoff * Pow2(i)
      decreases MaxRetries - attempt
    {
      match answers[attempt - 1]
      case Frame(rows) =>
        if rows == [] {
          return None, EmptyAnswer, sleeps;
        }
        return Some(rows), Ok, sleeps;
      case Raised(err) =>
        if attempt == MaxRetries {
          return None, ErrorFinal(err), sleeps;
        }
        sleeps := sleeps + [InitialBackoff * Pow2(attempt - 1)];
      attempt := attempt + 1;
    }
  }

  function Sum(xs: seq<nat>): nat
  {
    if xs == [] then 0 else Sum(xs[..|xs| - 1]) + xs[|xs| - 1]
  }

  /** The backoffs double, so a run that sleeps `n` times waits 60 * (2^n - 1) seconds in all. */
  lemma {:induction false} TotalBackoff(sleeps: seq<nat>)
    requires forall i :: 0 <= i < |sleeps| ==> sleeps[i] == InitialBackoff * Pow2(i)
    ensures Sum(sleeps) == InitialBackoff * (Pow2(|sleeps|) - 1)
  {
    if sleeps != [] {
      var n := |sleeps| - 1;
      TotalBackoff(sleeps[..n]);
    }
  }

  /** How a run ends. */
  datatype Outcome =
    | NoKeyword
      /** The frame is written to `{safe}_{timestamp}.csv`. */
    | Saved(safe: string, rows: Series)
    | FetchFailed(status: FetchStatus)

  /**
   * The second half of `main` (lines 119-134): fetch the keyword and move it according to the
   * result. Only `processing` and the target file change.
   */
  method FetchAndMove(q: KeywordFiles, k: string, answers: seq<Response>) returns (out: Outcome)
    requires |answers| == MaxRetries
    modifies q
    ensures out.Saved? || out.FetchFailed?
    ensures q.unprocessed == old(q.unprocessed)
    ensures q.processing == (if old(q.processing).Some? then Some(KeepUnlessStripsTo(old(q.processing).value, k)) else None)
    ensures out.Saved? ==> (
      && out.safe == SafeKw(k) && out.rows != []
      && FirstOk(answers, Answered) < MaxRetries && answers[FirstOk(answers, Answered)] == Frame(out.rows)
      && q.processed == Appended(old(q.processed), Strip(k)) && q.failed == old(q.failed))
    ensures out.FetchFailed? ==> (
      && out.status != Ok
      && q.failed == Appended(old(q.failed), Strip(k)) && q.processed == old(q.processed))
  {
    var df, status, _ := FetchKeyword(answers);
    if df.Some? && status == Ok {
      q.MoveFromProcessingTo(Processed, k);
      out := Saved(SafeKw(k), df.value);
    } else {
      q.MoveFromProcessingTo(Failed, k);
      out := FetchFailed(status);
    }
  }

  /**
   * `main` (lines 109-140). `answers` are the provider's answers to the five attempts. The
   * popped keyword (stripped) is appended to `processing`, fetched, and moved: to `processed`
   * with its frame saved when the fetch is "ok", to `failed` otherwise. Either move takes the
   * keyword's line back out of `processing`.
   */
  method Run(q: KeywordFiles, answers: seq<Response>) returns (kw: Option<string>, out: Outcome, ghost idx: nat)
    requires |answers| == MaxRetries
    modifies q
    ensures kw.None? <==> out == NoKeyword
    ensures kw.None? ==> (
      && (forall i :: 0 <= i < |Contents(old(q.unprocessed))| ==> !Valid(Contents(old(q.unprocessed))[i]))
      && q.unprocessed == old(q.unprocessed) && q.processing == old(q.processing)
      && q.processed == old(q.processed) && q.failed == old(q.failed))
    ensures kw.Some? ==> old(q.unprocessed).Some? && var ls := old(q.unprocessed).value;
      && idx < |ls| && Valid(ls[idx]) && (forall i :: 0 <= i < idx ==> !Valid(ls[i]))
      && kw.value == Strip(ls[idx])
      && q.unprocessed == Some(ls[..idx] + ls[idx + 1..])
      && q.processing == Some(KeepUnlessStripsTo(Contents(old(q.processing)), kw.value))
    ensures kw.Some? && out.Saved? ==> (
      && out.safe == SafeKw(kw.value) && out.rows != []
      && FirstOk(answers, Answered) < MaxRetries && answers[FirstOk(answers, Answered)] == Frame(out.rows)
      && q.processed == Appended(old(q.processed), kw.value) && q.failed == old(q.failed))
    ensures kw.Some? && out.FetchFailed? ==> (
      && out.status != Ok
      && q.failed == Appended(old(q.failed), kw.value) && q.processed == old(q.processed))
  {
    kw, idx := q.PopFirstUnprocessed();
    if kw.None? {
      return kw, NoKeyword, idx;
    }
    var k := kw.value;
    StripIdempotent(old(q.unprocessed).value[idx]);
    assert Strip(k) == k;
    q.MarkProcessing(Strip(k));
    MoveUndoesMark(Contents(old(q.processing)), k);
    out := FetchAndMove(q, k, answers);
  }
}

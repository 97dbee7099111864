/**
 * The trends provider as the fetchers see it. Each request either raises or returns a frame;
 * `None` and an empty frame are the same answer to every caller, an empty `Frame`. A fetcher's
 * retry loop is given the answers the provider would give to its successive attempts.
 */
module Provider {
  import opened Series

  datatype Response = Raised(msg: string) | Frame(rows: Series)

  /** `df is None or df.empty`. */
  predicate Empty(r: Response)
  {
    r.Frame? && r.rows == []
  }

  /** An attempt that returns a frame, empty or not, rather than raising. */
  predicate Answered(r: Response)
  {
    r.Frame?
  }

  /**
   * The number of answers before the first one `ok` accepts: the attempt that ends a retry
   * loop, counted from 0, or all of them when none is accepted.
   */
  function FirstOk(rs: seq<Response>, ok: Response -> bool): (k: nat)
    ensures k <= |rs|
    ensures forall i :: 0 <= i < k ==> !ok(rs[i])
    ensures k < |rs| ==> ok(rs[k])
  {
    if rs == [] then 0
    else if ok(rs[0]) then 0
    else 1 + FirstOk(rs[1..], ok)
  }
}

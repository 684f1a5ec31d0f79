/** Optional values and the outcomes of calls to the remote data service. */
module Wrappers {

  /** `undefined`/`null` versus a present value. */
  datatype Option<+T> = None | Some(value: T)

  /** Result of a remote write that selects nothing back
      (insert or delete of a like, a bookmark, a post or a comment):
      either it went through or the service returned an error. */
  datatype Outcome = Success | Failure(error: string)

  /** How many of a series of remote writes went through. */
  function SuccessCount(outcomes: seq<Outcome>): (n: nat)
    ensures n <= |outcomes|
  {
    if outcomes == [] then 0
    else (if outcomes[0].Success? then 1 else 0) + SuccessCount(outcomes[1..])
  }

  /** Result of a remote write followed by `.select().single()`:
      the written record, no record, or an error. */
  datatype Response<+T> = Data(row: T) | NoData | Error(error: string)
}

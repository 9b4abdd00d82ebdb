/** Small value types shared by both slices. */
module Common {

  /** `null`/`undefined` (None) or a present value (Some). */
  datatype Option<+T> = None | Some(value: T) {
    /** The present value, or `default` when absent. */
    function GetOr(default: T): T {
      match this
      case Some(v) => v
      case None => default
    }
  }

  /** A JavaScript `Error`: the slices only ever read its message. */
  datatype Error = Error(message: string)

  /** How an awaited API call settles: resolved with a value or rejected with an error. */
  datatype ApiOutcome<+T> = Resolved(value: T) | Rejected(error: Error)

  /** What a thunk does when run: the argument it passes to the API and the
      actions it dispatches, in order. */
  datatype ThunkRun<+Req, +A> = ThunkRun(request: Req, dispatched: seq<A>)
}

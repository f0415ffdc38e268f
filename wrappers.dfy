/** Option and Result, the failure-carrying values the rest of the model returns. */
module Wrappers {

  /** A value that may be absent: JavaScript's `null`/`undefined` where the source allows them. */
  datatype Option<+T> = None | Some(value: T) {

    /** The value, or `default` when absent. */
    function GetOr(default: T): T {
      match this
      case Some(v) => v
      case None => default
    }
  }

  /** The outcome of an operation that can throw: `Failure` carries the thrown error's message. */
  datatype Result<+T, +E> = Success(value: T) | Failure(error: E)
}

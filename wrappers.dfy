/** Optional values and success-or-error results shared by every module. */
module Wrappers {

  /** A value that may be absent: JavaScript's `undefined`/`null` against a present value. */
  datatype Option<+T> = None | Some(value: T) {

    /** The value, or `default` when absent — the `x || default` idiom on a present value. */
    function GetOr(default: T): T {
      match this
      case Some(v) => v
      case None => default
    }
  }

  /** The outcome of a handler: its payload, or the error it hands to `next(...)`. */
  datatype Result<+T, +E> = Success(value: T) | Failure(error: E)
}

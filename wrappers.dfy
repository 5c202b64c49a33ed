/** Option and Result, the failure-carrying wrappers used across the model. */
module Wrappers {

  /** A value that may be absent (Python's `None`). */
  datatype Option<+T> = None | Some(value: T) {
    /** The wrapped value, or `default` when absent. */
    function GetOr(default: T): T {
      match this
      case Some(v) => v
      case None => default
    }
  }

  /** The outcome of an operation that can raise: a value or the error it raised. */
  datatype Result<+R, +E> = Success(value: R) | Failure(error: E)
}

/** Failure-compatible wrappers shared by every module of the model. */
module Wrappers {

  /** A value that may be absent: Go's nil pointers, nil maps and "not found" lookups. */
  datatype Option<+T> = None | Some(value: T) {
    function GetOr(default: T): T {
      match this
      case Some(v) => v
      case None => default
    }
  }

  /** A value or an error: Go's `(T, error)` results. */
  datatype Result<+T, +E> = Success(value: T) | Failure(error: E)
}

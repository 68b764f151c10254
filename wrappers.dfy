/** Failure-carrying values used for the Go `(value, error)` returns. */
module Wrappers {

  /** A Go pointer or slice that may be nil. */
  datatype Option<+T> = None | Some(value: T)

  /** A Go `(*T, error)` pair where exactly one side is set. */
  datatype Result<+T, +E> = Success(value: T) | Failure(error: E)

  /** A bare Go `error` return: nil (Pass) or an error (Fail). */
  datatype Outcome<+E> = Pass | Fail(error: E)
}

/** Failure-carrying values used for Go's `(value, error)` returns and for panics
    that the model turns into an explicit "no value". */
module Wrappers {

  datatype Option<+T> = None | Some(value: T)

  /** A value or the error the callee reported. */
  datatype Result<+R, +E> = Success(value: R) | Failure(error: E)

  /** A bare `error` return: `nil` (Pass) or an error value (Fail). */
  datatype Outcome<+E> = Pass | Fail(error: E)
}

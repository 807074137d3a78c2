/** Failure-compatible wrappers: Go's `(value, error)` returns become `Result`,
    a bare `error` return becomes `Outcome`, a nil-able value becomes `Option`. */
module Wrappers {

  datatype Option<+T> = None | Some(value: T)

  datatype Result<+R, +E> = Success(value: R) | Failure(error: E)

  datatype Outcome<+E> = Pass | Fail(error: E)
}

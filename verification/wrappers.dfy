/** Failure-carrying values: Go's `(T, error)` pairs and bare `error` returns. */
module Wrappers {

  /** A Go `error`, seen through the text its `Error()` method returns. */
  type Error = string

  datatype Option<+T> = None | Some(value: T)

  /** A `(T, error)` pair of which exactly one side is meaningful. */
  datatype Result<+T, +E> = Success(value: T) | Failure(error: E)

  /** A bare `error` return: `nil` is `Pass`. */
  datatype Outcome<+E> = Pass | Fail(error: E)
}

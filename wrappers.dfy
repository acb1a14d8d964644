/** Failure-carrying result types, standing in for Python's None and exceptions. */
module Wrappers {

  /** A value that may be absent (Python's `str | None`). */
  datatype Option<+T> = None | Some(value: T)

  /** A value, or the exception that was raised instead of returning it. */
  datatype Result<+T, +E> = Success(value: T) | Failure(error: E)

  /** A call returning nothing (`-> None`) that either completes or raises. */
  datatype Outcome<+E> = Pass | Fail(error: E)
}

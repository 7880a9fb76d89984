/** Failure-carrying values used where the source returns None or raises. */
module Wrappers {
  /** A value that may be absent: Python's `None` versus a result. */
  datatype Option<+T> = None | Some(value: T)

  /** A result or the exception the source raises instead of returning. */
  datatype Result<+T, +E> = Ok(value: T) | Err(error: E)
}

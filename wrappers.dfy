/** Failure-compatible wrappers: a nullable value and a value-or-error outcome. */
module Wrappers {

  /** A Java reference that may be null. */
  datatype Option<+T> = None | Some(value: T)

  /** The normal result of an operation, or the exception it throws. */
  datatype Result<+T, +E> = Success(value: T) | Failure(error: E)
}

/** Failure-carrying values used in place of Java's null and exceptions. */
module Wrappers {

  /** A Java reference that may be null. */
  datatype Option<+T> = None | Some(value: T)

  /** A value, or the exception the operation throws instead of returning it. */
  datatype Result<+T, +E> = Success(value: T) | Failure(error: E)

  /** The outcome of a `void` operation: it returns normally or throws. */
  datatype Outcome<+E> = Pass | Fail(error: E)
}

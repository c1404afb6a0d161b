/** Failure-carrying datatypes used in place of the source's exceptions. */
module Wrappers {

  /** A value or nothing (the source's `None`). */
  datatype Option<+T> = None | Some(value: T)

  /** A value, or the exception that was raised instead. */
  datatype Result<+T, +E> = Success(value: T) | Failure(error: E)

  /** Normal return, or the exception that was raised instead. */
  datatype Outcome<+E> = Pass | Fail(error: E)
}

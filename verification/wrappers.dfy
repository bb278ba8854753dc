/** Failure-carrying values used in place of the source's error messages and exceptions. */
module Wrappers {

  datatype Option<+T> = None | Some(value: T)

  /** The result of an operation that yields a value or an error. */
  datatype Result<+R, +E> = Success(value: R) | Failure(error: E)

  /** The result of an operation that yields nothing or an error. */
  datatype Outcome<+E> = Pass | Fail(error: E)
}

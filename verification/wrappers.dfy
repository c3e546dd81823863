/** Failure-carrying results used in place of the exceptions the C# code throws. */
module Wrappers {

  /** A value that may be absent: the model of a nullable C# reference to an immutable value (a string). */
  datatype Option<+T> = None | Some(value: T)

  /** The outcome of an operation that returns nothing but may fail. */
  datatype Outcome<+E> = Pass | Fail(error: E)

  /** The outcome of an operation that returns a value or fails. */
  datatype Result<+R, +E> = Success(value: R) | Failure(error: E)
}

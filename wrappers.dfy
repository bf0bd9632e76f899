/** Failure-carrying return values: the model's stand-in for Java's `null`
    and for the exceptions the service throws. */
module Wrappers {

  /** A value that may be absent (a nullable Java reference). */
  datatype Option<+T> = None | Some(value: T)

  /** The outcome of an operation that returns a value or throws. */
  datatype Result<+T, +E> = Ok(value: T) | Err(error: E)

  /** The outcome of a `void` operation that returns normally or throws. */
  datatype Outcome<+E> = Pass | Fail(error: E)
}

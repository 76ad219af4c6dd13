/** Failure-carrying result types shared by the modules of this model. */
module Wrappers {

  datatype Option<+T> = None | Some(value: T)

  /** The value of an operation, or the exception the source would raise instead. */
  datatype Result<+T, +E> = Success(value: T) | Failure(error: E)

  /** A check that either passes or fails with an error and computes nothing. */
  datatype Outcome<+E> = Pass | Fail(error: E)
}

/** Failure-compatible result types used across the model. */
module Wrappers {

  datatype Option<+T> = None | Some(value: T)

  /** A computation that yields a value or fails with an error. */
  datatype Result<+R, +E> = Success(value: R) | Failure(error: E)

  /** A side-effecting step that either completes or fails with an error. */
  datatype Outcome<+E> = Pass | Fail(error: E)
}

/** Failure-carrying values used across the model. */
module Wrappers {

  /** A value that may be missing (Swift's optional). */
  datatype Option<+T> = None | Some(value: T)

  /** The outcome of a call that may throw (Swift's `try` / `catch`). */
  datatype Result<+T, +E> = Success(value: T) | Failure(error: E)
}

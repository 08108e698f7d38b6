/** Option and Result, used throughout the model. */
module Wrappers {

  /** A value that may be missing: Java's `null` for a reference that may be absent. */
  datatype Option<+T> = None | Some(value: T)

  /** The outcome of an operation: its value, or the unchecked exception it raised. */
  datatype Result<+R, +E> = Success(value: R) | Failure(error: E)
}

/** Failure-carrying values used throughout the model. */
module Wrappers {

  /** A value that may be absent. */
  datatype Option<+T> = None | Some(value: T)

  /** Either a successful value or the error that the Python code would raise. */
  datatype Result<+R, +E> = Success(value: R) | Failure(error: E)
}

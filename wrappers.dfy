/** Optional values and failure-carrying results, as used across the model. */
module Wrappers {

  /** A Python value that may be `None`. */
  datatype Option<+T> = None | Some(value: T)

  /** Either the value an operation produced or the exception it raised. */
  datatype Result<+R, +E> = Success(value: R) | Failure(error: E)
}

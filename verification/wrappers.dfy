/** Optional values and success/failure results, shared by the models. */
module Wrappers {

  /** A value that may be absent (PHP `null`). */
  datatype Option<+T> = None | Some(value: T)

  /** The outcome of an operation that either returns a value or throws. */
  datatype Result<+R, +E> = Success(value: R) | Failure(error: E)
}

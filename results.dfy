/** Optional values and success-or-error results, as used throughout the model. */
module Results {

  /** A value that may be absent (a Java reference that may be null). */
  datatype Option<+T> = None | Some(value: T)

  /** The outcome of an operation that either succeeds or throws. */
  datatype Result<+T, +E> = Success(value: T) | Failure(error: E)
}

/** Optional values and error results, used for `undefined` fields and thrown errors. */
module Wrappers {

  /** A value that may be absent (JavaScript's `undefined`). */
  datatype Option<+T> = None | Some(value: T)

  /** The outcome of an operation that may throw: its value, or the error it throws. */
  datatype Result<+R, +E> = Success(value: R) | Failure(error: E)
}

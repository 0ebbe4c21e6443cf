/** Optional values and fallible results used across the model. */
module Wrappers {

  /** Kotlin's nullable `T?`: `None` stands for `null`. */
  datatype Option<+T> = None | Some(value: T)

  /** A value, or the exception that stopped the computation. */
  datatype Result<+T, +E> = Success(value: T) | Failure(error: E)
}

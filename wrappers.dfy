/** Optional values and results used in place of `null` and `undefined`. */
module Wrappers {

  /** `Some(v)` for a present value, `None` for `null` or `undefined`. */
  datatype Option<+T> = None | Some(value: T)

  /** A value, or the reason no value could be produced. */
  datatype Result<+T, +E> = Success(value: T) | Failure(error: E)
}

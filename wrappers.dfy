/** Optional values and the outcome of a call that may throw. */
module Wrappers {

  /** Swift's `Optional`: `None` is `nil`. */
  datatype Option<+T> = None | Some(value: T)

  /** The outcome of a throwing call: a value, or the error it threw. */
  datatype Result<+R, +E> = Ok(value: R) | Err(error: E)
}

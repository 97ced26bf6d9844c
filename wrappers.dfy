/** Optional values and results with an error, used across the model. */
module Wrappers {

  /** `None` stands for JavaScript's `undefined`, a missing row or a missing value. */
  datatype Option<+T> = None | Some(value: T)

  /** The outcome of an operation that may throw: `Err` carries what was thrown. */
  datatype Result<+T, +E> = Ok(value: T) | Err(error: E)
}

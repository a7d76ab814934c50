/** Optional values and error returns used throughout the model. */
module Wrappers {

  /** An optional value: a TypeScript `T | undefined`. */
  datatype Option<+T> = None | Some(value: T)

  /** The outcome of an operation that may throw: the value, or the error it throws. */
  datatype Result<+T, +E> = Ok(value: T) | Err(error: E)
}

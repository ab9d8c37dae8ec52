/** Optional values and error returns used across the model. */
module Wrappers {

  /** A value that may be missing: TypeScript's `T | null` or `T | undefined`. */
  datatype Option<T> = None | Some(value: T)

  /** The outcome of an operation that may throw: `Err` carries the error's message. */
  datatype Result<T, E> = Ok(value: T) | Err(error: E)
}

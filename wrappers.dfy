/** Optional values and results with an error, shared by every module of the model. */
module Wrappers {

  /** A value that may be absent: Python's `None`, PHP's `null`/`false` from a missing option. */
  datatype Option<+T> = None | Some(value: T)

  /** The outcome of an operation that may raise or return an error object. */
  datatype Result<+T, +E> = Ok(value: T) | Err(error: E)
}

/** Failure-compatible wrappers used across the model. */
module Wrappers {

  datatype Option<+T> = None | Some(value: T)

  /** The outcome of an operation that the source lets raise. */
  datatype Result<+T, +E> = Ok(value: T) | Err(error: E)
}

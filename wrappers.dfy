/** Failure-carrying wrappers used across the model. */
module Wrappers {

  /** A value that may be absent (Python's `None`). */
  datatype Option<+T> = None | Some(value: T)

  /** A computation that either produced a value or raised an error that the caller sees. */
  datatype Result<+T, +E> = Ok(value: T) | Err(error: E)
}

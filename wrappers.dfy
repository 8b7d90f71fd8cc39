/** Failure-carrying result types used across the model. */
module Wrappers {

  /** A value that may be absent: Python's `None` or a caught exception. */
  datatype Option<+T> = None | Some(value: T)

  /** The outcome of a step that can end the whole run with a fatal error. */
  datatype Result<+T, +E> = Ok(value: T) | Err(error: E)
}

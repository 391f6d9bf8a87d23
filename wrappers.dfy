/** The two outcome wrappers used throughout the model. */
module Wrappers {

  /** A value that may be absent (Python's `None`). */
  datatype Option<+T> = None | Some(value: T)

  /** The result of a step that may stop the command. */
  datatype Result<+T, +E> = Ok(value: T) | Err(error: E)
}

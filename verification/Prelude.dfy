// Small datatypes shared by every module of the project.
module Prelude {
  /** A value that may be absent (the source's `None`). */
  datatype Option<+T> = None | Some(value: T)

  /** The outcome of an operation that the source ends with an exception. */
  datatype Result<+T, +E> = Ok(value: T) | Err(error: E)
}

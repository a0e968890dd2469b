/** Optional values and results shared by the modules of the model. */
module Wrappers {

  /** A value that may be absent (Python's `None`, a failed lookup). */
  datatype Option<+T> = None | Some(value: T)

  /** The outcome of an operation that can raise an exception the caller does not catch. */
  datatype Result<+T, +E> = Ok(value: T) | Err(error: E)
}

/** Optional values and error results shared by the whole model. */
module Wrappers {
  /** A value that may be missing (a C# `null` / a Python `None`). */
  datatype Option<T> = None | Some(value: T)

  /** The outcome of an operation that can throw in the source. */
  datatype Result<T, E> = Ok(value: T) | Err(error: E)
}

/** Optional values and results that carry a failure, used throughout the converter. */
module Wrappers {

  /** A value that may be absent (Python's `None`). */
  datatype Option<+T> = None | Some(value: T)

  /** The outcome of a step that may abort the whole conversion. */
  datatype Result<+T, +E> = Ok(value: T) | Err(error: E)
}

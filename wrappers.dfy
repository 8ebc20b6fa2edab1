/** Option and Result, the two failure-carrying types the rest of the model returns. */
module Wrappers {

  /** A value that may be absent (Python's `None`, or a missing key). */
  datatype Option<+T> = None | Some(value: T)

  /** A computed value, or the exception the source would raise instead. */
  datatype Result<+T, +E> = Ok(value: T) | Err(error: E)
}

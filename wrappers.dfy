/** Option and Result, the two failure-carrying types the model uses. */
module Wrappers {

  /** A value that may be absent (a missing file, a regex that did not match). */
  datatype Option<+T> = None | Some(value: T)

  /** The outcome of a conversion that can raise (Python's ValueError). */
  datatype Result<+T, +E> = Ok(value: T) | Err(error: E)
}

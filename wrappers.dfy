/** Option and Result, the two failure-carrying types the model uses. */
module Wrappers {

  datatype Option<+T> = None | Some(value: T)

  /** A computation that either gives a value or raises an exception. */
  datatype Result<+T, +E> = Ok(value: T) | Err(error: E)
}

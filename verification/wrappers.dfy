/** Option and Result, the two failure-carrying values every adapter returns. */
module Wrappers {

  datatype Option<+T> = None | Some(value: T)

  datatype Result<+T, +E> = Ok(value: T) | Err(error: E)

  /** The unit value of an operation that returns nothing on success. */
  datatype Unit = Unit
}

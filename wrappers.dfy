/** Option and Result, the failure-carrying values every layer of the model returns. */
module Wrappers {

  datatype Option<+T> = None | Some(value: T)

  /** The outcome of an operation that raises an exception on failure. */
  datatype Result<+T, +E> = Ok(value: T) | Err(error: E)
}

/** Option and Result, the failure-carrying types used by the rest of the model. */
module Wrappers {

  /** Python's `Optional[...]`: a field or a value that may be `None`. */
  datatype Option<+T> = None | Some(value: T)

  /** The outcome of a call that either returns a value or raises an exception. */
  datatype Result<+T, +E> = Ok(value: T) | Err(error: E)
}

/** Small failure-carrying datatypes shared by the modules of this model. */
module Wrappers {

  datatype Option<+T> = None | Some(value: T)

  /** The value of an exception-raising operation: either its result or the raised error. */
  datatype Result<+T, +E> = Ok(value: T) | Err(error: E)
}

/** Option and Result datatypes shared by the other modules. */
module Wrappers {

  datatype Option<+T> = None | Some(value: T)

  /** A Go `(value, err)` pair where only one side is meaningful. */
  datatype Result<+T, +E> = Ok(value: T) | Err(error: E)
}

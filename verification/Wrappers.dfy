/** Failure-carrying results and bytes, shared by the whole model. */
module Wrappers {
  datatype Option<+T> = None | Some(value: T)

  newtype byte = x: int | 0 <= x < 256

  datatype Result<+T, +E> = Ok(value: T) | Err(error: E)
}

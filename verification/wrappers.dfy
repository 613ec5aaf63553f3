/** Option and Result, shared by the generator model. */
module Wrappers {

  datatype Option<+T> = None | Some(value: T)

  /** Either a value or an error; the generator's outcome type. */
  datatype Result<+R, +E> = Success(value: R) | Failure(error: E)
}

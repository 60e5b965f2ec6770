/** Option and Result types used across the modules. */
module Wrappers {

  datatype Option<+T> = None | Some(value: T)

  /** Either a value, or the error that the source would raise instead. */
  datatype Result<+T, +E> = Success(value: T) | Failure(error: E)
}

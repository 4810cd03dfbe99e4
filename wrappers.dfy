/** Option and Result types shared by the registry model. */
module Wrappers {

  datatype Option<+T> = None | Some(value: T)

  /** Either a computed value or the reason the computation was refused. */
  datatype Result<+T, +E> = Success(value: T) | Failure(error: E)
}

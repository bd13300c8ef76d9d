/** Option and Result values shared by every module. */
module Wrappers {
  datatype Option<+T> = None | Some(value: T)

  /** `Failure` stands for an exception that the modelled code raises; its payload says which one. */
  datatype Result<+T, +E> = Success(value: T) | Failure(error: E)
}

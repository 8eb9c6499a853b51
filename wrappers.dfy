/** Option and Result values shared by the model's modules. */
module Wrappers {

  datatype Option<+T> = None | Some(value: T)

  /** The outcome of a computation that may throw, with the exception's description. */
  datatype Result<+R> = Success(value: R) | Failure(error: string)
}

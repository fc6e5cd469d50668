/** Failure-compatible Option and Result types shared by the relay modules. */
module Wrappers {

  datatype Option<+T> = None | Some(value: T)

  /** A value or an error message. */
  datatype Result<+T> = Success(value: T) | Failure(error: string)
}

/** Failure-carrying values shared by every module of the model. */
module Basics {

  /** A value that may be absent: JavaScript's `null`/`undefined`. */
  datatype Option<+T> = None | Some(value: T)

  /** The outcome of an operation that can throw or reject. */
  datatype Result<+T, +E> = Success(value: T) | Failure(error: E)
}

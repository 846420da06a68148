/** Failure-compatible wrappers used throughout the model. */
module Wrappers {

  /** A value that may be absent: the model of a nullable C pointer. */
  datatype Option<+T> = None | Some(value: T)

  /** A computed value or the error that prevented it. */
  datatype Result<+T, +E> = Success(value: T) | Failure(error: E)

  /** The outcome of a C function that returns 0 on success and -1 on error. */
  datatype Outcome<+E> = Pass | Fail(error: E)
}

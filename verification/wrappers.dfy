/** Failure-compatible wrappers shared by the report modules. */
module Wrappers {

  /** A value that may be missing, as a pandas cell that may hold None. */
  datatype Option<+T> = None | Some(value: T)

  /** The outcome of a step that can fail with an error of type E. */
  datatype Result<+T, +E> = Success(value: T) | Failure(error: E)
}

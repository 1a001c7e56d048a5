/** Failure-carrying result types shared by the model. */
module Wrappers {

  /** A value that may be absent: a missing argument, an unset variable, a failed extraction. */
  datatype Option<+T> = None | Some(value: T)

  /** Either a value, or the error that stopped the computation (here: a process exit code). */
  datatype Result<+R, +E> = Success(value: R) | Failure(error: E)
}

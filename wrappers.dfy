/** Option, Result and Outcome: the error paths of the pipeline as values. */
module Wrappers {

  datatype Option<+T> = None | Some(value: T) {
    function GetOr(default: T): T {
      match this
      case Some(v) => v
      case None => default
    }
  }

  datatype Result<+T, +E> = Success(value: T) | Failure(error: E)

  /** Pass, or Fail carrying the exception that was raised. */
  datatype Outcome<+E> = Pass | Fail(error: E)
}

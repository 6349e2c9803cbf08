/** Option and Result, used for SQL NULL, JavaScript `undefined` and thrown errors. */
module Wrappers {

  datatype Option<+T> = None | Some(value: T) {
    function GetOr(default: T): T {
      match this
      case Some(v) => v
      case None => default
    }
  }

  /** The outcome of a service call: a value, or the error it throws. */
  datatype Result<+T, +E> = Success(value: T) | Failure(error: E)

  /** A property of a JavaScript request object that may be left `undefined`. */
  datatype Patch<+T> = Absent | Present(value: T)
}

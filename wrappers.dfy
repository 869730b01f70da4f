/** Option, Result and Outcome: the null, the thrown exception and the
    "returns nothing or throws" of the PHP code, made explicit. */
module Wrappers {

  datatype Option<+T> = None | Some(value: T) {
    function GetOr(default: T): T {
      match this
      case Some(v) => v
      case None => default
    }
  }

  /** A call that either returns a value or throws `error`. */
  datatype Result<+R, +E> = Success(value: R) | Failure(error: E)

  /** A call that returns nothing useful or throws `error`. */
  datatype Outcome<+E> = Pass | Fail(error: E)
}

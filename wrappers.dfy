/** Option and Result values used for Python's "maybe unbound" values and raised errors. */
module Wrappers {

  datatype Option<+T> = None | Some(value: T) {
    function GetOr(default: T): T {
      match this
      case Some(v) => v
      case None => default
    }
  }

  /** A Python call that either returns a value or raises an exception whose text is the error. */
  datatype Result<+T, +E> = Success(value: T) | Failure(error: E)
}

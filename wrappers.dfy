/** Failure-compatible wrappers shared by the modules of this project. */
module Wrappers {

  /** A value that may be missing, as a key absent from a Python dict. */
  datatype Option<+T> = None | Some(value: T) {

    /** The wrapped value, or `default` when missing (Python's `dict.get(key, default)`). */
    function GetOr(default: T): T {
      match this
      case Some(v) => v
      case None => default
    }
  }

  /** The outcome of an operation that either returns a value or raises an error. */
  datatype Result<+R, +E> = Success(value: R) | Failure(error: E)
}

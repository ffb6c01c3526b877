/** Optional values (Python's `None` versus a present value) and results
    that are either a value or a raised error. */
module Wrappers {

  datatype Option<+T> = None | Some(value: T) {

    /** The present value, or `default` when there is none. */
    function GetOr(default: T): T {
      match this
      case Some(v) => v
      case None => default
    }
  }

  /** A value, or the error a Python call raises instead. */
  datatype Result<+T, +E> = Success(value: T) | Failure(error: E)
}

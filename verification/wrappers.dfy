/** Optional values and success/failure results shared by every component model. */
module Wrappers {

  /** A value that may be absent: the model of `T | null` / `T | undefined`. */
  datatype Option<+T> = None | Some(value: T) {

    /** Returns the wrapped value, or `default` when absent. */
    function GetOr(default: T): T {
      match this
      case Some(v) => v
      case None => default
    }
  }

  /** The outcome of an operation that may throw: `Failure` carries the error text. */
  datatype Result<+R, +E> = Success(value: R) | Failure(error: E)
}

/** Optional values and results with an error, as used throughout the model. */
module Wrappers {

  /** A value that may be absent: JavaScript's `undefined` or `null`. */
  datatype Option<+T> = None | Some(value: T) {

    /** The carried value, or `default` when absent. */
    function GetOr(default: T): T {
      match this
      case Some(v) => v
      case None => default
    }
  }

  /** The outcome of an operation that can be rejected with an error. */
  datatype Result<+T, +E> = Success(value: T) | Failure(error: E)
}

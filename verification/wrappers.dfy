/** Failure-carrying datatypes used by the rest of the model. */
module Wrappers {

  /** A value that may be absent: a dictionary key that is missing, a fetch that failed. */
  datatype Option<+T> = None | Some(value: T) {

    /** The value held, or `default` when there is none (Python's `dict.get(key, default)`). */
    function GetOr(default: T): T {
      match this
      case Some(v) => v
      case None => default
    }
  }

  /** Either a computed value or the error that stopped the computation. */
  datatype Result<+R, +E> = Success(value: R) | Failure(error: E)
}

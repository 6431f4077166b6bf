/** Option and Result, the two failure-carrying wrappers the model uses. */
module Wrappers {

  /** Python's `None` / a present value. */
  datatype Option<+T> = None | Some(value: T) {

    /** The value, or `default` when there is none (`dict.get(key, default)`). */
    function GetOr(default: T): T
    {
      match this
      case Some(v) => v
      case None => default
    }
  }

  /** A value, or the exception that was raised instead. */
  datatype Result<+R, +E> = Success(value: R) | Failure(error: E)
}

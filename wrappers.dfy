/** Option and Result, the two failure-carrying datatypes the model uses. */
module Wrappers {

  /** A value that may be missing: a masked gate, an unreadable file. */
  datatype Option<+T> = None | Some(value: T) {

    /** The value, or `default` when it is missing (numpy's `filled`). */
    function GetOr(default: T): T
    {
      match this
      case Some(v) => v
      case None => default
    }
  }

  /** Either a value or the error the source raises instead of returning one. */
  datatype Result<+R, +E> = Success(value: R) | Failure(error: E)
}

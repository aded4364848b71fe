/** Option and Result, the wrappers the model uses for
    Python's None and for the error paths (HTTP errors, SQL errors). */
module Wrappers {

  /** Python's `X | None`: a value that may be missing. */
  datatype Option<+T> = None | Some(value: T) {

    /** The value, or `default` when missing. */
    function GetOr(default: T): T {
      match this
      case Some(v) => v
      case None => default
    }
  }

  /** Either a value or the error that stopped the operation. */
  datatype Result<+R, +E> = Success(value: R) | Failure(error: E)
}

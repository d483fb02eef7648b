/** Optional values and results with an error, as the handlers return them. */
module Wrappers {

  /** A value that may be absent: an optional field of a record, or a rollup
      that answers `null` when there is no data. */
  datatype Option<+T> = None | Some(value: T) {

    /** The value, or `default` when there is none. */
    function GetOr(default: T): T {
      match this
      case Some(v) => v
      case None => default
    }
  }

  /** The outcome of a handler that can fail with an error value. */
  datatype Result<+R, +E> = Success(value: R) | Failure(error: E)
}

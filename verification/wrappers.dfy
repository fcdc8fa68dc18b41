/** Optional values and results shared by the browser model. */
module Wrappers {

  /** A value that may be absent, such as a regular-expression capture. */
  datatype Option<+T> = None | Some(value: T) {

    /** Falls back to `fallback` for a missing value. */
    function GetOr(fallback: T): T {
      if Some? then value else fallback
    }
  }

  /** The outcome of a computation that may stop with an error, such as a Go
      runtime panic. */
  datatype Result<+T, +E> = Success(value: T) | Failure(error: E)
}

/** Optional values and success-or-error results, shared by every module. */
module Wrappers {

  datatype Option<+T> = None | Some(value: T) {
    /** The value held, or `default` when there is none. */
    function GetOr(default: T): T {
      if Some? then value else default
    }
  }

  /** A JavaScript `{ error: … }` return becomes `Failure`, anything else `Success`. */
  datatype Result<+R, +E> = Success(value: R) | Failure(error: E)
}

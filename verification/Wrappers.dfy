/** Optional values and outcomes, shared by every other module. */
module Wrappers {

  datatype Option<+T> = None | Some(value: T) {
    function GetOr(fallback: T): T {
      match this
      case Some(v) => v
      case None => fallback
    }
  }

  /** A call that returned, or the exception that left it. */
  datatype Result<+T, +E> = Success(value: T) | Failure(error: E)
}

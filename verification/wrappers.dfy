/** Optional values and results shared by the storefront model. */
module Wrappers {

  /** A value that may be absent: `undefined` / `null` in the storefront's TypeScript. */
  datatype Option<+T> = None | Some(value: T) {

    /** The present value, or `default` when absent. */
    function GetOr(default: T): T {
      match this
      case Some(v) => v
      case None => default
    }
  }

  /** The outcome of an operation that can fail with an error value. */
  datatype Result<+R, +E> = Success(value: R) | Failure(error: E)
}

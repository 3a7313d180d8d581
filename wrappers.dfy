/** Option and Result, the two failure-compatible datatypes the handlers use. */
module Wrappers {

  /** A JavaScript property that may be `undefined` (None) or hold a value. */
  datatype Option<+T> = None | Some(value: T) {

    /** The value, or `default` when the property is undefined. */
    function GetOr(default: T): T {
      match this
      case Some(v) => v
      case None => default
    }
  }

  /** What a callable handler hands back: a result value or a classified error. */
  datatype Result<+R, +E> = Success(value: R) | Failure(error: E)
}

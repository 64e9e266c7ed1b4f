/** Optional values and "this Python call raised" outcomes, shared by every module. */
module Wrappers {

  /** Python's `Optional[T]`: `None` or a value. */
  datatype Option<+T> = None | Some(value: T) {

    /** The value, or `default` when there is none (Python's `x or default` on a present key). */
    function GetOr(default: T): T {
      match this
      case Some(v) => v
      case None => default
    }
  }

  /** The outcome of a Python expression that can raise `IndexError`
      (an out-of-range list subscript) instead of returning. */
  datatype Fallible<+T> = Returned(value: T) | IndexError
}

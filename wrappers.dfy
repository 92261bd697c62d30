/** `None`/`Some` for Python values that may be absent (a failed fetch, no amount found, a missing column). */
module Wrappers {

  datatype Option<T> = None | Some(value: T) {

    /** The value, or `default` when absent (Python's `x or default` on an optional value). */
    function GetOr(default: T): T {
      match this
      case Some(v) => v
      case None => default
    }
  }
}

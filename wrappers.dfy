/** Optional values: JavaScript's `undefined` / `null` alternatives are modelled as `None`. */
module Wrappers {

  datatype Option<+T> = None | Some(value: T) {

    /** Returns the value held by `Some`, or `default` for `None` (JavaScript's `x ?? default`). */
    function GetOr(default: T): T {
      match this
      case Some(v) => v
      case None => default
    }
  }
}

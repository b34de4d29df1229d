/** Optional values: a JavaScript `undefined` field or argument is `None`. */
module Wrappers {

  datatype Option<+T> = None | Some(value: T) {

    /** The value, or `default` when absent: JavaScript's `x || default` on a field that is either
        missing or holds a truthy value (arrays and objects are always truthy). */
    function GetOr(default: T): T {
      match this
      case Some(v) => v
      case None => default
    }
  }
}

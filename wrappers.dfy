/** Optional values: JavaScript's `null`/`undefined` become `None`. */
module Wrappers {

  datatype Option<+T> = None | Some(value: T) {

    /** `x ?? default` in the source. */
    function GetOr(default: T): T {
      match this
      case Some(v) => v
      case None => default
    }
  }
}

/** Optional values: JavaScript's `null`/`undefined` and Python's `None`. */
module Wrappers {

  datatype Option<T> = None | Some(value: T)
  {
    /** `x ?? fallback`. */
    function GetOr(fallback: T): T {
      match this
      case None => fallback
      case Some(v) => v
    }
  }
}

/** Optional values and pass/fail outcomes, standing in for JavaScript's
    null/undefined and for the exceptions the hooks throw. */
module Wrappers {

  datatype Option<+T> = None | Some(value: T) {
    /** `x ?? fallback` */
    function GetOr(fallback: T): T {
      match this
      case Some(v) => v
      case None => fallback
    }
  }

  datatype Outcome<+E> = Pass | Fail(error: E)
}

/** The Option datatype used for values that may be absent (JavaScript's
    null/undefined, a missing dictionary key, a NaN that the model drops). */
module Wrappers {

  datatype Option<+T> = None | Some(value: T) {

    /** The value, or `default` when absent (JavaScript's `x ?? default`). */
    function GetOr(default: T): T {
      match this
      case Some(v) => v
      case None => default
    }
  }
}

/** The optional value used wherever the source reads a field that may be null or undefined. */
module Wrappers {

  datatype Option<+T> = None | Some(value: T) {

    /** `x ?? fallback` in the source. */
    function GetOr(fallback: T): T {
      match this
      case Some(v) => v
      case None => fallback
    }
  }
}

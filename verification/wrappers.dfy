/** The optional value used for the source's nullable results (`HitInfo?`) and
    for operations that throw in the source (an index out of range, a division
    by zero). */
module Wrappers {

  datatype Option<+T> = None | Some(value: T) {

    /** Returns the value held in Some, or the default when None. */
    function GetOr(default: T): T {
      match this
      case Some(v) => v
      case None => default
    }
  }
}

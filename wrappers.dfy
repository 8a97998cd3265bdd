/** The usual optional-value datatype: a cell of a data frame that may be missing. */
module Wrappers {

  datatype Option<+T> = None | Some(value: T) {

    /** The value, or `default` when it is missing (pandas' `fillna(default)` on one cell). */
    function GetOr(default: T): T {
      match this
      case Some(v) => v
      case None => default
    }
  }
}

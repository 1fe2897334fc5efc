/** The optional-value datatype used throughout the model for "found / not found"
    and "parsed / did not parse" outcomes. */
module Wrappers {

  datatype Option<+T> = None | Some(value: T) {

    /** The carried value, or `default` when there is none. */
    function GetOr(default: T): T {
      match this
      case Some(v) => v
      case None => default
    }
  }
}

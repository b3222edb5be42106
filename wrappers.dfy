/** The Option datatype used across the model for JavaScript's `undefined`. */
module Wrappers {

  /** `None` stands for a missing (undefined) value. */
  datatype Option<+T> = None | Some(value: T) {

    /** The value, or `default` when it is missing. */
    function GetOr(default: T): T {
      match this
      case Some(v) => v
      case None => default
    }
  }
}

/** The optional-value type shared by every module of the model. */
module Wrappers {

  /** A present value or nothing, for the source's `null`, `undefined` and optional fields. */
  datatype Option<+T> = None | Some(value: T) {

    /** The value when present, otherwise the given default. */
    function GetOr(default: T): T {
      match this
      case Some(v) => v
      case None => default
    }
  }
}

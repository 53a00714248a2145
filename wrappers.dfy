/** The absent-or-present value used for optional request fields, query
    parameters and nullable client state. */
module Wrappers {

  datatype Option<+T> = None | Some(value: T) {

    /** Returns the value when present, otherwise the given default. */
    function GetOr(default: T): T {
      match this
      case Some(v) => v
      case None => default
    }
  }
}

/** Option, the failure-carrying datatype the other modules use. */
module Wrappers {

  /** Python's "value or None" at the places where the model needs to tell them apart. */
  datatype Option<+T> = None | Some(value: T) {
    function GetOr(default: T): T {
      match this
      case Some(v) => v
      case None => default
    }
  }
}

/** The optional value used wherever the service reads a key that may be
    missing or null, and wherever a SQL column may hold NULL. */
module Wrappers {

  datatype Option<+T> = None | Some(value: T) {

    /** The value, or `default` when there is none. */
    function GetOr(default: T): T {
      match this
      case Some(v) => v
      case None => default
    }
  }
}

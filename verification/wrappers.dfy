/** The optional value used wherever the service reads something that may be absent:
    a request header, a body field, a lookup in the user store, a token's claims. */
module Wrappers {

  datatype Option<+T> = None | Some(value: T) {

    /** The wrapped value, or `default` when there is none. */
    function GetOr(default: T): T {
      match this
      case Some(v) => v
      case None => default
    }
  }
}

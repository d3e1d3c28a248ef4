/** Failure-carrying values used across the model: an optional value and a
    result that is either a value or an error message (the JavaScript
    exception's text). */
module Wrappers {

  datatype Option<+T> = None | Some(value: T) {
    function GetOr(default: T): T {
      match this
      case Some(v) => v
      case None => default
    }
  }

  /** A computation that either returns a value or throws an Error whose
      message is `msg`. */
  datatype Result<+T> = Ok(value: T) | Err(msg: string)
}

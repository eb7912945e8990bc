/** Option and Result, the two failure-carrying shapes every module uses. */
module Wrappers {

  /** A JavaScript value that may be `undefined`/`null`, or a Mongo lookup that may find nothing. */
  datatype Option<+T> = None | Some(value: T) {
    function GetOr(default: T): T {
      match this
      case Some(v) => v
      case None => default
    }
  }

  /** An operation that either yields a value or fails with an error. */
  datatype Result<+T, +E> = Ok(value: T) | Err(error: E)
}

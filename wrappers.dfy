/** Optional values and the outcome of a call that may throw. */
module Wrappers {

  /** A value that may be `undefined` / `null` in the source. */
  datatype Option<+T> = None | Some(value: T) {
    function GetOr(default: T): T {
      match this
      case Some(v) => v
      case None => default
    }
  }

  /** The settled value of an awaited promise: resolved with a value, or rejected with an error message. */
  datatype Result<+T> = Ok(value: T) | Err(message: string)
}

/** Nullable values and the error-or-value outcome of the dashboard's async handlers. */
module Wrappers {

  /** A value that may be `null`/`undefined` in the client. */
  datatype Option<+T> = None | Some(value: T) {
    function GetOr(default: T): T {
      match this
      case Some(v) => v
      case None => default
    }
  }

  /** The outcome of a handler: a value, or the message of the `Error` it threw. */
  datatype Result<+T> = Ok(value: T) | Err(message: string)
}

/** Optional values and error results shared by the board and the service layer. */
module Common {

  /** A value that may be missing: JavaScript's `undefined`/`null` versus a present value. */
  datatype Option<+T> = None | Some(value: T) {
    function GetOr(default: T): T {
      match this
      case Some(v) => v
      case None => default
    }
  }

  /** The outcome of an operation that may throw: its value, or the message of the error thrown. */
  datatype Result<+T> = Ok(value: T) | Err(error: string)
}

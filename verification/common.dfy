/** Optional values and results, used by every part of the shop model for
    JavaScript's `null`/`undefined` and for thrown errors. */
module Common {

  /** A value that may be absent: JavaScript's `undefined` or `null`. */
  datatype Option<+T> = None | Some(value: T) {

    /** The value, or `default` when absent (JavaScript's `x ?? default`). */
    function GetOr(default: T): T {
      match this
      case Some(v) => v
      case None => default
    }
  }

  /** The outcome of an operation that may throw: the value, or the error message. */
  datatype Result<+T, +E> = Ok(value: T) | Err(error: E)
}

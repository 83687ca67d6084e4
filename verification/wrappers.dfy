/** Optional values and results with an error, used wherever the bot's Python code
    returns `None`, a falsy value, or raises an exception that a caller catches. */
module Wrappers {

  /** A value that may be absent (Python `Optional[T]`). */
  datatype Option<+T> = None | Some(value: T) {

    /** The carried value, or `default` when absent (Python `x or default` for `Optional`). */
    function GetOr(default: T): T {
      match this
      case Some(v) => v
      case None => default
    }
  }

  /** The outcome of a step that can fail (a raised exception in the source). */
  datatype Result<+T, +E> = Ok(value: T) | Err(error: E)
}

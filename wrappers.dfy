/** Option and Result, used for the program's "not found" iterators,
    indeterminate values and exceptions. */
module Wrappers {

  /** A value that may be absent (an `end()` iterator, an unset field). */
  datatype Option<+T> = None | Some(value: T) {
    function GetOr(default: T): T {
      match this
      case Some(v) => v
      case None => default
    }
  }

  /** The outcome of an operation that can throw: the value, or the error raised. */
  datatype Result<+T, +E> = Ok(value: T) | Err(error: E)
}

/** Option and Result, the two failure-carrying values the model uses for Python's
    `None` and for exceptions that the source raises to its caller. */
module Wrappers {

  /** `None` / `Some(v)`: Python's `Optional[T]`. */
  datatype Option<+T> = None | Some(value: T) {
    function GetOr(default: T): T {
      match this
      case Some(v) => v
      case None => default
    }
  }

  /** `Ok(v)` for a normal return, `Err(e)` for an exception raised to the caller. */
  datatype Result<+T, +E> = Ok(value: T) | Err(error: E)
}

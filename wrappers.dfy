/** Option and Result, the two shapes the program's reads and throws take. */
module Wrappers {

  /** A record that may be absent (a missing storage key, a `null` return). */
  datatype Option<+T> = None | Some(value: T) {
    /** The value, or `default` when absent (the source's `x || default` for present values). */
    function GetOr(default: T): T {
      match this
      case Some(v) => v
      case None => default
    }
  }

  /** A value, or the error an operation throws instead of returning. */
  datatype Result<+T, +E> = Ok(value: T) | Err(error: E)
}

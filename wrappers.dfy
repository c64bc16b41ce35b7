/** Option and Result: the shapes used for absent values (None/null/undefined) and for
    operations that may fail (raised exceptions, rejected requests). */
module Wrappers {

  datatype Option<+T> = None | Some(value: T) {
    /** The wrapped value, or `default` when absent (Python `x or d`, JS `x ?? d`). */
    function GetOr(default: T): T {
      match this
      case Some(v) => v
      case None => default
    }
  }

  datatype Result<+T, +E> = Ok(value: T) | Err(error: E)
}

/** Optional values and the outcomes of operations that may fail. */
module Wrappers {

  /** A JavaScript value that may be `null`. */
  datatype Option<+T> = None | Some(value: T) {
    function GetOr(default: T): T {
      match this
      case Some(v) => v
      case None => default
    }
  }

  /** The result of an operation that returns a value or throws an error. */
  datatype Result<+T, +E> = Ok(value: T) | Err(error: E)

  /** The result of a check that passes or fails with an error. */
  datatype Outcome<+E> = Pass | Fail(error: E)
}

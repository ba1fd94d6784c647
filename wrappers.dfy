/** Optional values and results with an error value, shared by every module of the model. */
module Wrappers {

  datatype Option<+T> = None | Some(value: T) {
    function GetOr(default: T): T {
      match this
      case Some(v) => v
      case None => default
    }
  }

  /** An operation that either yields a value or raises the error it carries. */
  datatype Result<+T, +E> = Ok(value: T) | Err(error: E)
}

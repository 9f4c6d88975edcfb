/** Failure-compatible wrappers used across the model: `Option` for values a
    JSON document or a provider may omit, `Result` for operations that either
    produce a value or report why they did not. */
module Wrappers {

  datatype Option<+T> = None | Some(value: T) {

    /** The value, or `default` when it is absent (Python's `d.get(k, default)`). */
    function GetOr(default: T): T {
      match this
      case Some(v) => v
      case None => default
    }
  }

  datatype Result<+R, +E> = Success(value: R) | Failure(error: E)
}

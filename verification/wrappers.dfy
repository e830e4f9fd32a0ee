/** Failure-compatible wrappers used across the model: `Option` stands for the
    source's `null` / `undefined` / `Optional.empty()`, `Result` for a value or
    a thrown exception. */
module Wrappers {

  datatype Option<+T> = None | Some(value: T) {

    /** The wrapped value, or `default` when there is none (JavaScript's `x ?? d`). */
    function GetOr(default: T): T {
      match this
      case Some(v) => v
      case None => default
    }
  }

  datatype Result<+T, +E> = Success(value: T) | Failure(error: E)
}

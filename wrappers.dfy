/** Failure-compatible wrappers used across the model: an optional value
    (a field that may be `undefined`) and the outcome of a call that may throw. */
module Wrappers {

  datatype Option<+T> = None | Some(value: T) {
    /** The wrapped value, or `default` when absent. */
    function GetOr(default: T): T {
      match this
      case Some(v) => v
      case None => default
    }
  }

  /** `Failure` stands for a thrown error; `Success` for a resolved value. */
  datatype Result<+R, +E> = Success(value: R) | Failure(error: E)
}

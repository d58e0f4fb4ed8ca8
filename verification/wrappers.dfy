/** Failure-carrying datatypes shared by every module of the model. */
module Wrappers {

  /** A value that may be absent: JavaScript's `null` / `undefined` / missing key. */
  datatype Option<+T> = None | Some(value: T) {

    /** The wrapped value, or `default` when absent (the `a || b` / `?? b` idiom). */
    function GetOr(default: T): T {
      match this
      case Some(v) => v
      case None => default
    }
  }

  /** The outcome of an operation that either succeeds with a value or reports an error. */
  datatype Result<+R, +E> = Success(value: R) | Failure(error: E)
}

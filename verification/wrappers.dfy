/** Option and Result: JavaScript's `undefined`/`null`/`NaN` and thrown errors, made explicit. */
module Wrappers {

  /** A value that may be absent (`undefined`, `null` or `NaN` in the source). */
  datatype Option<+T> = None | Some(value: T) {
    function GetOr(default: T): T {
      match this
      case Some(v) => v
      case None => default
    }
  }

  /** The outcome of an operation that may throw: the value, or the thrown error's message. */
  datatype Result<+T, +E> = Success(value: T) | Failure(error: E)
}

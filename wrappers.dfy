/** Option and Result: the optional values and the raised errors of the modelled code. */
module Wrappers {

  datatype Option<+T> = None | Some(value: T) {
    /** The value, or `default` when there is none (Python's `x or default` on an optional). */
    function GetOr(default: T): T {
      match this
      case Some(v) => v
      case None => default
    }
  }

  /** `Failure` stands for an exception raised by the modelled code, with its message. */
  datatype Result<+R, +E> = Success(value: R) | Failure(error: E)
}

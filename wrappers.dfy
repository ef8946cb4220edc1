/** Option and Result, the two failure-carrying shapes the model uses. */
module Wrappers {

  /** A value that may be missing; `None` also stands for JavaScript's NaN
      where a parse fails. */
  datatype Option<+T> = None | Some(value: T) {
    function GetOr(default: T): T {
      match this
      case Some(v) => v
      case None => default
    }
  }

  /** The outcome of an operation that either returns a value or throws. */
  datatype Result<+R, +E> = Ok(value: R) | Err(error: E)
}

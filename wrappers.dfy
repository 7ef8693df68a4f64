/** Python's `None`-or-value results and raised exceptions, as values. */
module Wrappers {

  /** A value that may be absent (Python's `Optional`). */
  datatype Option<+T> = None | Some(value: T) {
    function GetOr(default: T): T {
      match this
      case Some(v) => v
      case None => default
    }
  }

  /** The outcome of a computation that may raise: `Failure` carries the
      name of the exception the source would raise. */
  datatype Result<+T> = Success(value: T) | Failure(error: string)
}

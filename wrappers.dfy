/** Failure-compatible result types shared by the models. */
module Wrappers {

  /** A value that may be absent; `None` plays the role of Java's `null`. */
  datatype Option<+T> = None | Some(value: T) {

    /** The wrapped value, or `default` when there is none. */
    function GetOr(default: T): T {
      match this
      case Some(v) => v
      case None => default
    }
  }

  /** The outcome of a call that returns nothing but may throw `error`. */
  datatype Outcome<+E> = Pass | Fail(error: E)

  /** The outcome of a call that returns a value or throws `error`. */
  datatype Result<+T, +E> = Success(value: T) | Failure(error: E)
}

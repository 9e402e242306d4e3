/** The optional value used wherever the source returns a value or nothing
    (a falsy result, a `None`, an empty dict standing for "skip"). */
module Wrappers {

  datatype Option<+T> = None | Some(value: T) {

    /** The value, or `default` when there is none. */
    function GetOr(default: T): T {
      match this
      case Some(v) => v
      case None => default
    }
  }

  /** The outcome of an operation that either yields a value or fails with
      an error the caller inspects. */
  datatype Result<+T, +E> = Success(value: T) | Failure(error: E)
}

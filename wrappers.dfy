/** Absent-or-present values and success-or-failure results shared by the page modules. */
module Wrappers {

  /** A value that may be missing: a cancelled `prompt`, an absent storage key, no chosen file. */
  datatype Option<+T> = None | Some(value: T) {

    /** The carried value, or `default` when there is none. */
    function GetOr(default: T): T
    {
      match this
      case Some(v) => v
      case None => default
    }
  }

  /** The outcome of a handler that may throw. */
  datatype Result<+T, +E> = Success(value: T) | Failure(error: E)
}

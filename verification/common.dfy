/** Failure-carrying wrappers shared by every module of the model. */
module Common {

  /** A value that may be absent: `null`/`undefined` in the source. */
  datatype Option<+T> = None | Some(value: T) {

    /** The carried value, or `default` when absent (the source's `?? default`). */
    function GetOr(default: T): T {
      match this
      case Some(v) => v
      case None => default
    }
  }

  /** A computation that returns a value or throws an error. */
  datatype Result<+T, +E> = Ok(value: T) | Err(error: E)

  /** A computation that returns nothing or throws an error. */
  datatype Outcome<+E> = Pass | Fail(error: E)
}

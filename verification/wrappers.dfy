/** Option, Result and Outcome: the source's nullable values and exceptions. */
module Wrappers {

  /** A value that may be missing (a C# null). */
  datatype Option<+T> = None | Some(value: T) {
    function GetOr(default: T): T {
      if Some? then value else default
    }
  }

  /** The outcome of a call that either returns a value or throws an exception with a message. */
  datatype Result<+T, +E> = Ok(value: T) | Err(error: E)

  /** The outcome of a call that returns nothing or throws an exception with a message. */
  datatype Outcome<+E> = Pass | Fail(error: E)
}

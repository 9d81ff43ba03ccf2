/** Option and Result, the failure-carrying values the rest of the model returns. */
module Wrappers {

  /** A value that may be absent, Python's `None`. */
  datatype Option<+T> = None | Some(value: T) {
    /** `x if x is not None else d` */
    function GetOr(d: T): T {
      if Some? then value else d
    }
  }

  /** The outcome of an operation that may raise: its value, or the error it raises. */
  datatype Result<+T, +E> = Ok(value: T) | Err(error: E)
}

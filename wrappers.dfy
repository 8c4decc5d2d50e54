/** Failure-carrying values shared by the browser model and the bridge model. */
module Wrappers {

  /** A value that may be missing (a JavaScript `undefined`, a Python `None`). */
  datatype Option<+T> = None | Some(value: T)

  /** The result of a library call that either returns or raises; `msg` is `str(e)`. */
  datatype Result<+T> = Ok(value: T) | Err(msg: string)

  /** The result of a call that returns nothing, or raises with message `msg`. */
  datatype Outcome = Pass | Fail(msg: string)
}

/** Optional values and error results shared by the other modules. */
module Wrappers {

  /** A value that may be absent (Python's `None`). */
  datatype Option<+T> = None | Some(value: T)

  /** The outcome of a check that either passes or raises `error`. */
  datatype Outcome<+E> = Pass | Fail(error: E)

  /** A computed value, or the exception that stopped the computation. */
  datatype Result<+T, +E> = Ok(value: T) | Err(error: E)
}

/** Option and Result: Python's None and raised exceptions, as values. */
module Wrappers {

  datatype Option<+T> = None | Some(value: T)

  datatype Result<+R, +E> = Ok(value: R) | Err(error: E)

  /** A check that either passes or raises with an error value. */
  datatype Outcome<+E> = Pass | Fail(error: E)
}

/** Failure-carrying results: the Python exceptions of the driver become values. */
module Wrappers {

  datatype Option<+T> = None | Some(value: T)

  datatype Result<+R, +E> = Ok(value: R) | Err(error: E)

  /** The result of a check that either passes or raises. */
  datatype Outcome<+E> = Pass | Fail(error: E)
}

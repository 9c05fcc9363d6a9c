/** Failure-carrying datatypes for the error paths of the services. */
module Wrappers {

  datatype Option<+T> = None | Some(value: T)

  datatype Result<+T, +E> = Ok(value: T) | Err(error: E)

  /** An operation that returns nothing useful, or raises. */
  datatype Outcome<+E> = Pass | Fail(error: E)
}

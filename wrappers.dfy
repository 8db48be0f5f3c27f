/** Option, Result and Outcome values for the source's `None` returns and raised exceptions. */
module Wrappers {

  datatype Option<+T> = None | Some(value: T)

  /** A call that either returns a value or raises an error. */
  datatype Result<+R, +E> = Success(value: R) | Failure(error: E)

  /** A call that either returns normally (with no value of interest) or raises an error. */
  datatype Outcome<+E> = Pass | Fail(error: E)
}

/** Failure-carrying values shared by the scheduler modules. */
module Wrappers {

  datatype Option<+T> = None | Some(value: T)

  /** A computed value or the exception the computation raises. */
  datatype Result<+T, +E> = Ok(value: T) | Err(error: E)

  /** The outcome of a call whose only interesting result is whether it raised. */
  datatype Outcome<+E> = Pass | Fail(error: E)
}

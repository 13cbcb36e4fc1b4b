/** Option and Result types shared by the modules of this model. */
module Wrappers {

  datatype Option<+T> = None | Some(value: T)

  /** The outcome of an operation that may be rejected: a failed command
      leaves every piece of state untouched and reports an error. */
  datatype Result<+T, +E> = Ok(value: T) | Err(error: E)

  /** The outcome of a command that returns nothing on success. */
  datatype Outcome<+E> = Pass | Fail(error: E)
}

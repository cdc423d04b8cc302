/** Failure-carrying result types shared by the model: JavaScript `undefined` and thrown errors. */
module Wrappers {
  /** A value that may be absent (JavaScript `undefined` or `null`). */
  datatype Option<+T> = None | Some(value: T)

  /** The outcome of an operation that may throw: `Ok` with its value or `Err` with the error message. */
  datatype Result<+T> = Ok(value: T) | Err(message: string)

  /** The outcome of a statement that returns nothing but may throw. */
  datatype Outcome = Pass | Fail(message: string)
}

/** Failure-carrying values shared by the other modules. */
module Wrappers {

  /** A value that may be absent (TypeScript's optional field, `undefined`, `null`). */
  datatype Option<+T> = None | Some(value: T)

  /** The outcome of an operation that either produces a value or reports errors. */
  datatype Result<+T, +E> = Ok(value: T) | Err(error: E)
}

/** Optional values and the success/failure outcomes the model uses in place of exceptions. */
module Wrappers {

  /** A value that may be absent (`undefined` in JavaScript). */
  datatype Option<+T> = None | Some(value: T)

  /** A computation that either returns a value or throws an error. */
  datatype Result<+T, +E> = Ok(value: T) | Err(error: E)

  /** A computation without a value that either completes or throws an error. */
  datatype Outcome<+E> = Pass | Fail(error: E)
}

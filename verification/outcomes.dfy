/** Optional values and results with an error, as the expression engine returns them. */
module Outcomes {

  /** A value that may be absent. */
  datatype Option<+T> = None | Some(value: T)

  /** The outcome of an operation that throws in the source: a value or the reason it failed. */
  datatype Result<+T, +E> = Ok(value: T) | Err(error: E)
}

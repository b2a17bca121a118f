/** Optional values and results with an error, shared by the other modules. */
module Wrappers {

  /** A value that may be absent: JavaScript's `undefined`/`null` next to a present value. */
  datatype Option<+T> = None | Some(value: T)

  /** The outcome of an operation that either produces a value or fails (throws). */
  datatype Result<+T, +E> = Ok(value: T) | Err(error: E)
}

/** Optional values and results with an error, as used by the catalog model. */
module Wrappers {

  /** A value that may be absent: `undefined` / `null` in TypeScript. */
  datatype Option<+T> = None | Some(value: T)

  /** The outcome of an operation that either returns a value or throws an error. */
  datatype Result<+R, +E> = Success(value: R) | Failure(error: E)
}

/** Nullable values and outcomes that may have thrown. */
module Wrappers {

  /** A JavaScript/Python value that may be `null`/`undefined`/`None`. */
  datatype Option<+T> = None | Some(value: T)

  /** The result of a computation that either returns a value or throws. */
  datatype Result<+R, +E> = Success(value: R) | Failure(error: E)
}

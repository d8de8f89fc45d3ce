/** Wrappers shared by every module of the model. */
module Wrappers {

  /** A value that may be absent (JavaScript `undefined`/`null`, a missing document). */
  datatype Option<+T> = None | Some(value: T)

  /** Either a computed value or the error that stopped the computation. */
  datatype Result<+R, +E> = Success(value: R) | Failure(error: E)
}

/** Option and Result values shared by the modules of this model. */
module Wrappers {

  /** A value that may be absent: an `undefined` return or an optional field. */
  datatype Option<+T> = None | Some(value: T)

  /** A value or the error that replaced it: a thrown exception. */
  datatype Result<+R, +E> = Success(value: R) | Failure(error: E)
}

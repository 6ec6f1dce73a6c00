/** Failure-carrying values shared by the modules of this model. */
module Wrappers {

  datatype Option<+T> = None | Some(value: T)

  /** The value of an awaited call: what it resolved to, or what it was rejected with. */
  datatype Result<+T, +E> = Success(value: T) | Failure(error: E)
}

/** Failure-carrying wrappers shared by the other modules. */
module Wrappers {

  /** A value that may be absent; `None` stands for a decode or parse failure. */
  datatype Option<+T> = None | Some(value: T)

  /** The (value, error) pair a Go function returns, as one value. */
  datatype Result<+R, +E> = Success(value: R) | Failure(error: E)
}

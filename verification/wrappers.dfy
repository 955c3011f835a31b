/** Failure-carrying wrappers shared by the other modules. */
module Wrappers {

  /** A value that may be absent, like a dictionary entry that was never set. */
  datatype Option<+T> = None | Some(value: T)

  /** Either a value or the error that stopped its computation (a raised exception). */
  datatype Result<+T, +E> = Success(value: T) | Failure(error: E)
}

/**
 A value that may be absent, and one that may have failed.
 */
module Wrappers {

  datatype Option<+T> = None | Some(value: T)
  datatype Result<+T, +E> = Success(value: T) | Failure(error: E)
}

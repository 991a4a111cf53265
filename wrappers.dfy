/** Failure-carrying datatypes shared by the other modules. */
module Wrappers {

  /** A value that may be absent: Go's nil pointer, a missing map key, a missing cookie. */
  datatype Option<+T> = None | Some(value: T)

  /** Either a value or an error message: Go's `(value, err)` pair. */
  datatype Result<+T> = Success(value: T) | Failure(error: string)
}

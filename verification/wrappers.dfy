/** Failure-carrying results shared by the other modules. */
module Wrappers {

  /** An optional value: a C pointer that may be null, a draw that may not be issued. */
  datatype Option<+T> = None | Some(value: T)

  /** The outcome of an operation that halts the program on failure. */
  datatype Result<+R, +E> = Success(value: R) | Failure(error: E)
}

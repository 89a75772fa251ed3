/** Failure-carrying return values: the model's replacement for the
    print-and-exit error paths of the scene code. */
module Wrappers {

  /** A value that may be absent (a slot whose model was never set). */
  datatype Option<+T> = None | Some(value: T)

  /** Either the value an operation computed or the error that stopped it. */
  datatype Result<+T, +E> = Success(value: T) | Failure(error: E)
}

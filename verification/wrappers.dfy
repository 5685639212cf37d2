/** Datatypes for values that can be missing or can carry an error, used by
    the codec and by both chain adapters. */
module Wrappers {

  /** A value that may be missing, as a nil `*big.Int` is in the Go code. */
  datatype Option<+T> = None | Some(value: T)

  /** A value, or the error that took its place (a Go `(value, error)` pair). */
  datatype Result<+T, +E> = Success(value: T) | Failure(error: E)

  /** The outcome of a check with nothing to return: it passed, or it failed
      with an error (a bare Go `error` return). */
  datatype Outcome<+E> = Pass | Fail(error: E)
}

/** Failure-carrying values: Java's `null` and thrown exceptions made explicit. */
module Wrappers {

  /** A value that may be absent (a Java reference that may be `null`). */
  datatype Option<+T> = None | Some(value: T)

  /** A computation that either yields a value or throws `error`. */
  datatype Result<+R, +E> = Success(value: R) | Failure(error: E)

  /** A check that either passes or fails with `error`. */
  datatype Outcome<+E> = Pass | Fail(error: E)
}

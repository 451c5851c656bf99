/** Failure-carrying results used by the board model in place of Java's
    exceptions and nulls. */
module Wrappers {

  /** A value that may be absent: Java's `null` / `Optional.empty()`. */
  datatype Option<+T> = None | Some(value: T)

  /** A value or the error an operation failed with. */
  datatype Result<+T, +E> = Ok(value: T) | Err(error: E)

  /** Completion of a `void` operation: it returned normally or threw `error`. */
  datatype Outcome<+E> = Pass | Fail(error: E)
}

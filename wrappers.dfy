/** Failure-compatible wrappers shared by every module of the model. */
module Wrappers {

  /** A Java reference that may be null. */
  datatype Option<+T> = None | Some(value: T)

  /** A value, or the exception that a Java method would have thrown instead. */
  datatype Result<+T, +E> = Ok(value: T) | Err(error: E)

  /** The outcome of a `void` Java method: it returned, or it threw. */
  datatype Outcome<+E> = Pass | Fail(error: E)
}

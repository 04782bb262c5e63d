/** Option, Result and Outcome: the typed replacements for Java's null returns and exceptions. */
module Wrappers {

  datatype Option<+T> = None | Some(value: T)

  /** A value, or the error the Java code would have thrown. */
  datatype Result<+T, +E> = Success(value: T) | Failure(error: E)

  /** The outcome of a `void` Java method: it returned normally, or it threw. */
  datatype Outcome<+E> = Pass | Fail(error: E)
}

/** Small failure-carrying datatypes used for Java's `null` and exceptions. */
module Wrappers {

  /** `None` stands for Java's `null`. */
  datatype Option<+T> = None | Some(value: T)

  /** A value, or the exception that was thrown instead. */
  datatype Result<+T, +E> = Success(value: T) | Failure(error: E)

  /** Normal completion of a `void` method, or the exception it threw. */
  datatype Outcome<+E> = Pass | Fail(error: E)
}

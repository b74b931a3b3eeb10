/** Option and Result types used in place of Java's null and exceptions. */
module Wrappers {

  datatype Option<+T> = None | Some(value: T)

  /** The outcome of an operation that Java may abort with an exception. */
  datatype Result<+R, +E> = Success(value: R) | Failure(error: E)
}

/** Option and Result types standing in for Java's nullable references and thrown exceptions. */
module Wrappers {

  /** A value that may be missing: Java's `null` return. */
  datatype Option<+T> = None | Some(value: T)

  /** Either a value or the exception the Java code would have thrown. */
  datatype Result<+R, +E> = Success(value: R) | Failure(error: E)
}

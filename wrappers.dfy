/** Java's null and thrown exceptions, as values. */
module Wrappers {

  /** A reference that may be null. */
  datatype Option<T> = None | Some(value: T)

  /** A value, or the exception that was thrown instead. */
  datatype Result<T, E> = Success(value: T) | Failure(error: E)
}

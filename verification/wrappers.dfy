/** Wrappers used by the model: `Option` for the Java nullable references
    and `Result` for operations that can throw. */
module Wrappers {

  /** A value that may be absent: the model of a nullable Java reference. */
  datatype Option<+T> = None | Some(value: T)

  /** Either a computed value or the error the Java code would have thrown. */
  datatype Result<+R, +E> = Success(value: R) | Failure(error: E)
}

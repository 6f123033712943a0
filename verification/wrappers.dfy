/** `Option` and `Result`: `Option` stands for a Java reference that may be
    null, `Result` for a value or the exception a service method throws. */
module Wrappers {

  datatype Option<+T> = None | Some(value: T)

  datatype Result<+T, +E> = Success(value: T) | Failure(error: E)
}

/** The optional value of Rust's `Option`, and an outcome that is either a value or an
    error. */
module Wrappers {
  datatype Option<T> = None | Some(value: T)

  datatype Result<T, E> = Success(value: T) | Failure(error: E)
}

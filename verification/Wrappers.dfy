// Result types shared by every module: Go's (value, error) pairs and Rust's Result.
module Wrappers {
  datatype Option<+T> = None | Some(value: T)

  datatype Result<+T, +E> = Ok(value: T) | Err(error: E)
}

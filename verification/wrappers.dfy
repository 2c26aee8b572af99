/** Rust's `Result`, for the lexer's failing path. */
module Wrappers {
  datatype Result<+T, +E> = Ok(value: T) | Err(error: E)
}

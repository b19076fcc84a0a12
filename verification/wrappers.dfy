/** Rust's `Option` and `Result`, as the rest of the model uses them. */
module Wrappers {

  /** `Option<T>`: a value that may be absent. */
  datatype Option<+T> = None | Some(value: T)

  /** `Result<R, E>`: a value, or the error that prevented computing it. */
  datatype Result<+R, +E> = Ok(value: R) | Err(error: E)
}

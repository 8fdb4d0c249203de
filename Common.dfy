/** Small value wrappers shared by the other modules. */
module Common {

  /** An optional value (Rust's `Option`). */
  datatype Option<+T> = None | Some(value: T)

  /** A value or an error (Rust's `anyhow::Result`). */
  datatype Result<+T, +E> = Success(value: T) | Failure(error: E)
}

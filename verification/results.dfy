/** Rust's `Option` and `Result`, as the rest of the model uses them. */
module Results {

  datatype Option<+T> = None | Some(value: T)

  /** `Ok` carries the value, `Err` the error, as in Rust. */
  datatype Result<+T, +E> = Ok(value: T) | Err(error: E)
}

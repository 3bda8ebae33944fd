/** What a fallible Rust function returns. */
module Results {
  datatype Result<+R, +E> = Ok(value: R) | Err(error: E)
}

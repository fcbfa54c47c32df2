/** Option and Result: the shapes the model uses for Java's null and for exceptions. */
module Base {
  datatype Option<+T> = None | Some(value: T)

  datatype Result<+T, +E> = Ok(value: T) | Err(error: E)
}

/** Failure-compatible wrappers shared by the quiz and the editor models. */
module Common {

  /** Python's `Optional[T]`: a value or `None`. */
  datatype Option<+T> = None | Some(value: T)

  /** A value, or the reason an operation refused its input. */
  datatype Result<+T, +E> = Ok(value: T) | Err(error: E)
}

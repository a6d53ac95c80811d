/**
 * Small value wrappers shared by every module: an optional value (Python's
 * `None` or a value) and a result that is either a value or an error.
 */
module Base {
  datatype Option<T> = None | Some(value: T)

  datatype Result<T, E> = Ok(value: T) | Err(error: E)
  {
    predicate IsFailure() { this.Err? }
  }
}

/** Failure-carrying values shared by every stage of the build. */
module Base {

  datatype Option<T> = None | Some(value: T)

  /** The outcome of a stage that may raise: the value, or the exception it raises. */
  datatype Result<T, E> = Ok(value: T) | Err(error: E)
}

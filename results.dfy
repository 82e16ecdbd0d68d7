/** Failure-carrying datatypes shared by the modules of the model. */
module Results {

  /** An optional value: an environment variable that may be unset, content that may not decode. */
  datatype Option<+T> = None | Some(value: T)

  /** The value of a fallible operation, or the error it failed with. */
  datatype Result<+T, +E> = Ok(value: T) | Err(error: E)

  /** The outcome of a fallible operation that yields no value. */
  datatype Outcome<+E> = Pass | Fail(error: E)
}

/** Failure-carrying wrappers shared by every module of the model. */
module Common {

  datatype Option<+T> = None | Some(value: T)

  /** The Go convention `(value, error)`: exactly one of the two is meaningful. */
  datatype Result<+T, +E> = Ok(value: T) | Err(error: E)

  /** A Go `error` return with no value beside it: `nil` or an error. */
  datatype Outcome<+E> = Pass | Fail(error: E)
}

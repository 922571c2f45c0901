/** Small failure-carrying wrappers shared by every module of the model. */
module Common {

  /** A value that may be absent: the model of a JavaScript `find` result. */
  datatype Option<+T> = None | Some(value: T)

  /** The outcome of an operation that returns nothing or throws. */
  datatype Outcome<+E> = Pass | Fail(error: E)

  /** The outcome of an operation that returns a value or throws. */
  datatype Result<+T, +E> = Success(value: T) | Failure(error: E)
}

/** Failure-carrying results for the services' exceptions. */
module Results {

  datatype Option<+T> = None | Some(value: T)

  /** A value, or the exception the Java code would have thrown. */
  datatype Result<+T, +E> = Ok(value: T) | Err(error: E)

  /** The outcome of a `void` service method: it returns, or it throws. */
  datatype Outcome<+E> = Pass | Fail(error: E)
}

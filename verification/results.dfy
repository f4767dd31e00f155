/** Failure-carrying values used wherever the Go code returns `(value, err)`. */
module Results {

  /** A value that may be absent. */
  datatype Option<+T> = None | Some(value: T)

  /** A value, or the message of the error that prevented computing it. */
  datatype Result<+T> = Ok(value: T) | Err(message: string)

  /** The outcome of a call that produces nothing but may fail. */
  datatype Outcome = Pass | Fail(message: string)
}

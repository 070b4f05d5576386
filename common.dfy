/** Failure-carrying result types used across the model, in place of the
    source's `None`/`False` returns paired with a message. */
module Common {

  datatype Option<+T> = None | Some(value: T)

  /** A value, or the reason the operation refused. */
  datatype Result<+T, +E> = Ok(value: T) | Err(error: E)

  /** Success without a value, or the reason the operation refused. */
  datatype Outcome<+E> = Pass | Fail(error: E)
}

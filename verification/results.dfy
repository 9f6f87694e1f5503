/** Failure-carrying wrappers used for the Python exceptions of the model. */
module Results {

  /** A value that may be absent (Python's `None`, or a `dict.get` miss). */
  datatype Option<+T> = None | Some(value: T)

  /** The outcome of an operation that either returns or raises. */
  datatype Result<+T, +E> = Ok(value: T) | Err(error: E)
}

/** The two result types the other modules share. */
module Options {

  /** A value that may be absent: Python's `None`, or a key a mapping does not hold. */
  datatype Option<+T> = None | Some(value: T)

  /** What an operation returns: its value, or the exception it raises. */
  datatype Result<+T, +E> = Ok(value: T) | Err(error: E)
}

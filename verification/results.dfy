/** Failure-carrying values shared by every module: Python's `None` and raised exceptions. */
module Results {

  /** A value that may be absent (Python `None`). */
  datatype Option<+T> = None | Some(value: T)

  /** Either a value or the text of an error the source raises. */
  datatype Result<+T> = Ok(value: T) | Err(error: string)
}

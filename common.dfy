/** Small value types shared by every module of the model. */
module Common {

  /** One byte of an uploaded or produced file. */
  newtype byte = b: int | 0 <= b < 256

  /** A value that may be absent (Python's `None`). */
  datatype Option<T> = None | Some(value: T)

  /** The outcome of an operation that may raise instead of returning. */
  datatype Result<T, E> = Ok(value: T) | Err(error: E)
}

/** Option and Result datatypes shared by the other modules. */
module Results {

  /** A value that may be absent, as Python's `None` stands for "nothing found". */
  datatype Option<+T> = None | Some(value: T)

  /** The outcome of an operation that either yields a value or raises. */
  datatype Result<+T, +E> = Success(value: T) | Failure(error: E)
}

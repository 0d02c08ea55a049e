/** Outcomes shared by the models. */
module Common {
  datatype Option<+T> = None | Some(value: T)

  /** `Failure` stands for the exception a Python function raises. */
  datatype Result<+T, +E> = Success(value: T) | Failure(error: E)
}

/** Success/failure wrappers used for the exceptions the modelled code raises. */
module Results {

  datatype Option<+T> = None | Some(value: T)

  /** `Err` stands for a Python exception raised by the modelled code. */
  datatype Result<+T, +E> = Ok(value: T) | Err(error: E)
}

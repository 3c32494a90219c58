/** Option and error-carrying results shared by the modules of the model. */
module Results {

  /** A Go result that is either `nil` or a value. */
  datatype Option<+T> = None | Some(value: T)

  /** A Go `(value, error)` pair in which exactly one side is set; the error is
      kept as the text its `Error()` method gives. */
  datatype Result<+T> = Ok(value: T) | Err(error: string)
}

/** The optional value and the outcome of a call that may fail. */
module Results {

  datatype Option<+T> = None | Some(value: T)

  /** `Err` carries the error code the source throws. */
  datatype Result<+T> = Ok(value: T) | Err(code: string)
}

/** Outcome datatypes for the Go convention of returning (value, error). */
module Results {

  datatype Option<+T> = None | Some(value: T)

  /** A Go `(value, err)` pair: either the value with a nil error, or the error text. */
  datatype Result<+T> = Ok(value: T) | Err(error: string)
}

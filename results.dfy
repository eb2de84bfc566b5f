/** Option and Result values shared by the modules of this model. */
module Results {

  /** A value that may be missing: a JavaScript `undefined` or a failed match. */
  datatype Option<+T> = None | Some(value: T)

  /** The value of a step that may throw: `Ok` carries the value, `Err` the reason. */
  datatype Result<+T, +E> = Ok(value: T) | Err(error: E)
}

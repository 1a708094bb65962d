/** Failure-compatible helper datatypes shared by the modules of the model. */
module Wrappers {

  /** An optional value: Go's nil pointer / "not found" results. */
  datatype Option<+T> = None | Some(value: T)

  /** A value or an error, for Go functions returning `(T, error)`. */
  datatype Result<+T, +E> = Ok(value: T) | Err(error: E)
}

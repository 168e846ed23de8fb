/** Failure-carrying values: Go's `(*T, error)` pairs and nil pointers. */
module Wrappers {

  datatype Option<+T> = None | Some(value: T)

  /** `Ok(v)` is a nil error with value `v`; `Err(e)` carries the error's message. */
  datatype Result<+T, +E> = Ok(value: T) | Err(error: E)
}

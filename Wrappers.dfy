/** Option and Result values, standing for Go's `(value, error)` pairs. */
module Wrappers {

  datatype Option<+T> = None | Some(value: T)

  /** A Go `(value, err)` return: `Err` when `err != nil`. */
  datatype Result<+T, +E> = Ok(value: T) | Err(error: E)
}

/** Option and Result values standing in for Go's `nil` and `(value, error)` pairs. */
module Wrappers {

  /** An optional value: `None` is Go's `nil`. */
  datatype Option<+T> = None | Some(value: T)

  /** A value or an error; Go errors are modelled by their message. */
  datatype Result<+T> = Ok(value: T) | Err(error: string)
}

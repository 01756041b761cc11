/** Failure-compatible result types shared by the other modules. */
module Wrappers {

  datatype Option<+T> = None | Some(value: T)

  /** Go's `(value, error)` return pairs: exactly one side is meaningful. */
  datatype Result<+T> = Ok(value: T) | Err(error: string)
}

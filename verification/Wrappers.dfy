/** Option and Result, shared by every component. */
module Wrappers {
  datatype Option<+T> = None | Some(value: T)

  /** Go's `(value, error)` pair; the text of an error is never modelled. */
  datatype Result<+T> = Ok(value: T) | Err
}

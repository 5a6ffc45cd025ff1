/** Failure-carrying results shared by the models. */
module Wrappers {

  datatype Option<+T> = None | Some(value: T)

  /** A Go `(value, error)` pair; the text of an error is not modelled. */
  datatype Result<+T> = Ok(value: T) | Err
}

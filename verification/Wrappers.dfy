/** Small datatypes shared by the models. */
module Wrappers {
  datatype Option<+T> = None | Some(value: T)

  /** The outcome of an operation that may raise. */
  datatype Result<+T> = Ok(value: T) | Raised
}

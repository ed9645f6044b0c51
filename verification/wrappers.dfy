/** The optional value and the success-or-error outcome used across the model. */
module Wrappers {

  /** An optional value: `None` stands for JavaScript's `undefined` or a missing reply. */
  datatype Option<+T> = None | Some(value: T)

  /** The outcome of an operation that the source can abort by throwing. */
  datatype Result<+T, +E> = Ok(value: T) | Err(error: E)
}

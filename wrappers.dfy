/** The optional-value datatype used across the model (JavaScript's `undefined`/`null`). */
module Wrappers {
  datatype Option<+T> = None | Some(value: T)
}

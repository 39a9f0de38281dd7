/** Option datatype used for the error paths of the model. */
module Wrappers {
  datatype Option<+T> = None | Some(value: T)
}

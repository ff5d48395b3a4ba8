/** The optional values used throughout the project: a null pointer is `None`. */
module Wrappers {
  datatype Option<+T> = None | Some(value: T)
}

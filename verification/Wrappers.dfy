/** The optional value every component of the model shares. */
module Wrappers {
  datatype Option<+T> = None | Some(value: T)
}

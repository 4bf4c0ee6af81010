/** The optional value used for Python variables that may be unbound. */
module Wrappers {
  datatype Option<+T> = None | Some(value: T)
}

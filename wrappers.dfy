/** The optional value shared by every component of the machine. */
module Wrappers {
  datatype Option<+T> = None | Some(value: T)
}

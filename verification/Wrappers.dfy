/** The value that may be missing, shared by every other module. */
module Wrappers {
  datatype Option<+T> = None | Some(value: T)
}

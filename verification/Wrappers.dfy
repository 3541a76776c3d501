/** The optional value used by every module below. */
module Wrappers {
  datatype Option<+T> = None | Some(value: T)
}

/** A value that may be absent: a null pointer, an exception, a missing entry. */
module Wrappers {
  datatype Option<+T> = None | Some(value: T)
}

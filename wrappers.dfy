/** The optional value used for pointers that may be null. */
module Wrappers {
  datatype Option<T> = None | Some(value: T)
}

/** The optional value used for host `'a option` values and for nullable native pointers. */
module Wrappers {
  datatype Option<+T> = None | Some(value: T)
}

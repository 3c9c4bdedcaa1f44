/** The optional result of a lookup that may find nothing (PHP's `null`). */
module Wrappers {
  datatype Option<+T> = None | Some(value: T)
}

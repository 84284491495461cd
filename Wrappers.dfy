// The result of a lookup that can fail.

module Wrappers {
  datatype Option<+T> = None | Some(value: T)
}

/** The absent-or-present value used wherever the source returns nil or null. */
module Wrappers {
  datatype Option<+T> = None | Some(value: T)
}

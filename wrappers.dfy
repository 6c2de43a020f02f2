/** The absent-or-present value used wherever the source may produce `None`. */
module Wrappers {

  datatype Option<+T> = None | Some(value: T)
}

/** The optional value used wherever the patcher works with a nullable reference. */
module Wrappers {

  datatype Option<+T> = None | Some(value: T)
}

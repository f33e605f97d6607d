/** The optional value used wherever the Go code uses a nil interface or pointer. */
module Wrappers {

  datatype Option<+T> = None | Some(value: T)
}

/** The optional value used for Go's nil results and two-value map reads. */
module Wrappers {
  datatype Option<+T> = None | Some(value: T)
}

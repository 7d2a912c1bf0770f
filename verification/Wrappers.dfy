/** A value that may be absent: Go's nil pointers and the comma-ok results. */
module Wrappers {
  datatype Option<+T> = None | Some(value: T)
}

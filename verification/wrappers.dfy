/** A value that may be absent; `None` plays the part of Go's nil error. */
module Wrappers {

  datatype Option<+T> = None | Some(value: T)
}

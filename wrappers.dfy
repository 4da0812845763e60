/** A value that may be absent: stands for Go's nil interfaces and nil function values. */
module Wrappers {

  datatype Option<+T> = None | Some(value: T)
}

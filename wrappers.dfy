// The optional value used wherever the source returns a null pointer or an
// absent child.

module Wrappers {

  datatype Option<+T> = None | Some(value: T)
}

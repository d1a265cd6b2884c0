/** The optional value used wherever the source produces a Swift optional. */
module Wrappers {

  datatype Option<+T> = None | Some(value: T)
}

/** The optional value used wherever the source uses `null`. */
module Wrappers {
  datatype Option<+T> = None | Some(value: T)
}

/** The optional value used wherever the source has a nil reference or a SQL NULL. */
module Wrappers {
  datatype Option<+T> = None | Some(value: T)
}

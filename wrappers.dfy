/** The optional value used for SQL NULL, Python's None and "no row found". */
module Wrappers {
  datatype Option<+T> = None | Some(value: T)
}

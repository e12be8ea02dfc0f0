/** The optional value used for searches and parses that may find nothing. */
module Wrappers {
  datatype Option<+T> = None | Some(value: T)
}

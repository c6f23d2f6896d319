/** The optional value used for the session's nullable fields and for parse results. */
module Wrappers {
  datatype Option<+T> = None | Some(value: T)
}

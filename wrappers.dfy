/** The optional value used wherever the server compares against `null`. */
module Wrappers {
  datatype Option<+T> = None | Some(value: T)
}

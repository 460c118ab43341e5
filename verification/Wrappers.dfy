/** The optional value used wherever the program may answer with nothing. */
module Wrappers {
  datatype Option<+T> = None | Some(value: T)
}

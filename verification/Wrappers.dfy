/** The optional value used throughout: a missing cell, an absent deadline, a nil pointer. */
module Wrappers {
  datatype Option<+T> = None | Some(value: T)
}

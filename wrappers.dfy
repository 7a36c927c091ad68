/** The optional value returned by the flag parser, whose default may be Python's `None`. */
module Wrappers {

  datatype Option<+T> = None | Some(value: T)
}

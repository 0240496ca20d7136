/** The optional value used wherever the C code passes a pointer that may be NULL. */
module Wrappers {

  datatype Option<+T> = None | Some(value: T)
}

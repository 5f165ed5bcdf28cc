/** The optional value used where the library's Python code uses `None`. */
module Wrappers {
  datatype Option<+T> = None | Some(value: T)
}

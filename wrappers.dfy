/** The optional value used wherever the scanner's Python code may get `None`
    back or may see a library call raise. */
module Wrappers {

  datatype Option<+T> = None | Some(value: T)
}

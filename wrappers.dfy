/** The optional value returned by the platform calls that may fail to produce one
    (reading the cursor position, parsing a stored number). */
module Wrappers {

  datatype Option<+T> = None | Some(value: T)
}

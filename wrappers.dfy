/** The optional value used wherever the front end reads a field that may be
    absent (`undefined` or `null` in JavaScript). */
module Wrappers {

  datatype Option<+T> = None | Some(value: T)
}

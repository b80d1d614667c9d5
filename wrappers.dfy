/** The optional-value datatype used for absent fields and failed parses. */
module Wrappers {

  datatype Option<+T> = None | Some(value: T)
}

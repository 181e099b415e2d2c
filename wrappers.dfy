/** The optional-value datatype used for PHP values that are a string or `false`. */
module Wrappers {

  datatype Option<+T> = None | Some(value: T)
}

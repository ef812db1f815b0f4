/** The optional-value datatype used for JavaScript values that may be NaN or undefined. */
module Wrappers {

  datatype Option<+T> = None | Some(value: T)
}

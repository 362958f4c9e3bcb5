/** The optional-value datatype used for the nullable values of the analysed program. */
module Wrappers {
  datatype Option<+T> = None | Some(value: T)
}

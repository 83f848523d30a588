/** The optional-value datatype used for fallible results. */
module Wrappers {

  datatype Option<+T> = None | Some(value: T)
}

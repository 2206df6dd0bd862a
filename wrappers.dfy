/** The optional-value datatype used for every decoder that can fail. */
module Wrappers {

  datatype Option<+T> = None | Some(value: T)
}

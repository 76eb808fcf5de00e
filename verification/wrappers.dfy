/** The Some/None datatype used for partial lookups throughout the model. */
module Wrappers {

  datatype Option<+T> = None | Some(value: T)
}

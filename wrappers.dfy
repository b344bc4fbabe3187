/** The optional-value datatype used for property lookups. */
module Wrappers {

  datatype Option<+T> = None | Some(value: T)
}

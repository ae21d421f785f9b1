/** The optional value used for catalog lookups and stored patterns. */
module Wrappers {

  datatype Option<+T> = None | Some(value: T)
}

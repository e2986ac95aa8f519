/** The optional value used where the source either yields something or fails to parse. */
module Wrappers {
  datatype Option<+T> = None | Some(value: T)
}

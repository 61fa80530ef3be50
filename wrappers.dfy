/** The optional value used for the engine's thrown errors. */
module Wrappers {
  datatype Option<+T> = None | Some(value: T)
}

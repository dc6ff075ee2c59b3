/** The optional value used where the game can fail to find something. */
module Wrappers {

  datatype Option<+T> = None | Some(value: T)
}

/** The optional value used where the PHP code returns null or leaves a constant undefined. */
module Wrappers {
  datatype Option<+T> = None | Some(value: T)
}

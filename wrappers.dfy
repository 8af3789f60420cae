/** The optional value used where the game reads something that may be absent
    (a number typed at the level prompt that did not parse). */
module Wrappers {
  datatype Option<+T> = None | Some(value: T)
}

/** The optional value used for the game's `field?: T` properties. */
module Wrappers {

  datatype Option<T> = None | Some(value: T)
}

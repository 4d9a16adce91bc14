/** The optional value used for the track's one-slot buffer. */
module Wrappers {

  datatype Option<+T> = None | Some(value: T)
}

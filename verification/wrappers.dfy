/** The conventional optional value: a cache lookup either finds a line or misses. */
module Wrappers {

  datatype Option<+T> = None | Some(value: T)
}

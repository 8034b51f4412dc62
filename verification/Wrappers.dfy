/** The Option type the modules share: a C pointer that may be NULL, or a call that may return nothing. */
module Wrappers {
  datatype Option<+T> = None | Some(value: T)
}

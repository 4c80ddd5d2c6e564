/** Shared helper datatype. */
module Wrappers {

  /** A value that may be absent: a frame without a detected pose, a validator that raised nothing. */
  datatype Option<+T> = None | Some(value: T)
}

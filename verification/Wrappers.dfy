/** Failure and absence values shared by every model. */
module Wrappers {

  /** A value that may be missing: a C pointer that may be NULL. */
  datatype Option<+T> = None | Some(value: T)
}

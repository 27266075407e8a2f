/** The optional value used wherever the source has a pointer that may be null
    or an outcome that may be missing. */
module Wrappers {
  datatype Option<+T> = None | Some(value: T)
}

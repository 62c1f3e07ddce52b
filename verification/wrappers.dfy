/** The optional value used for C pointers that may be null. */
module Wrappers {

  /** `None` plays the part of a null pointer, `Some(v)` of a non-null one. */
  datatype Option<+T> = None | Some(value: T)
}

/** Small failure-compatible helper datatype shared by the modules of this model. */
module Wrappers {

  /** A value that may be absent: a null pointer, a missing map entry, a "not found" result. */
  datatype Option<+T> = None | Some(value: T)
}

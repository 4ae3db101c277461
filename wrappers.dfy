/** Small helper datatypes shared by the other modules. */
module Wrappers {

  /** A value that may be absent: the model's stand-in for a JavaScript `null` reference. */
  datatype Option<+T> = None | Some(value: T)
}

/** Small failure-compatible helper types shared by the component models. */
module Wrappers {

  /** An optional value: `None` stands for a NULL pointer or an untouched out-parameter. */
  datatype Option<+T> = None | Some(value: T)
}

/** Optional values and the outcome of a step that may raise, as Python code does. */
module Wrappers {

  datatype Option<+T> = None | Some(value: T)

  /** `Raised` stands for a Python exception escaping the step. */
  datatype Result<+T> = Ok(value: T) | Raised
}

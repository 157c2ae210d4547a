/** Optional values and results shared by the modules of this model. */
module Wrappers {

  /** An optional value; `None` plays the role of Python's `None`. */
  datatype Option<+T> = None | Some(value: T)

  /** Either a value or the error that the modelled program raises instead. */
  datatype Result<+T, +E> = Ok(value: T) | Err(error: E)
}

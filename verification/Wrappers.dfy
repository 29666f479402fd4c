/** Optional values and results of operations that may fail; error texts are not modelled. */
module Wrappers {
  datatype Option<+T> = None | Some(value: T)

  datatype Result<+T> = Ok(value: T) | Err
}

/** Optional values and fallible results. Error texts of the source are not kept. */
module Outcome {
  datatype Option<+T> = None | Some(value: T)

  datatype Result<+T> = Ok(value: T) | Err
}

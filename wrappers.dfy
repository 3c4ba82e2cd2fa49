/** Option stands in for JavaScript's `null`, `NaN` and `-Infinity` sentinels. */
module Wrappers {

  datatype Option<+T> = None | Some(value: T)

  datatype Result<+R, +E> = Ok(value: R) | Err(error: E)
}

/** Option and Result, standing for the places where the dashboard yields
    "nothing" (a NaN that becomes None) or raises (KeyError, IndexError). */
module Wrappers {
  datatype Option<+T> = None | Some(value: T)

  datatype Result<+T, +E> = Ok(value: T) | Err(error: E)
}

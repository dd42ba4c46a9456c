/** Optional values, results of calls that can fail, and truth as a number to count with. */
module Wrappers {
  datatype Option<+T> = None | Some(value: T)

  datatype Result<+T, +E> = Ok(value: T) | Err(error: E)

  function Bit(b: bool): nat { if b then 1 else 0 }
}

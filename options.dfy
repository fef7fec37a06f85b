/** Optional values and results, for Go's nil-able pointers and (value, error) pairs. */
module Options {

  datatype Option<+T> = None | Some(value: T)

  datatype Result<+T, +E> = Ok(value: T) | Err(error: E)
}

/** Optional values (pandas' NaN / Python's None) and results that may carry an error. */
module Options {
  datatype Option<T> = None | Some(value: T)

  datatype Result<T, E> = Ok(value: T) | Err(error: E)
}

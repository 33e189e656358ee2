/** Optional values and results with an error, for the values Python
    represents with `None` and for the exceptions the uploader raises. */
module Options {

  datatype Option<T> = None | Some(value: T)

  datatype Result<T, E> = Ok(value: T) | Err(error: E)
}

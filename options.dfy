/** Optional values and success/failure results, used where the application
    returns `null`/`undefined` or throws. */
module Options {

  datatype Option<+T> = None | Some(value: T)

  datatype Result<+T, +E> = Ok(value: T) | Err(error: E)
}

/** Optional values and success-or-error results, used for Python's `None`
    and for calls that either return a value or raise. */
module Results {

  datatype Option<+T> = None | Some(value: T)

  datatype Result<+T, +E> = Ok(value: T) | Err(error: E)
}

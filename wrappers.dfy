/** Optional values, standing for Python's `None` or a value, and the outcome of a call that
    may raise, the exception standing as its message `str(e)`. */
module Wrappers {

  datatype Option<+T> = None | Some(value: T)

  datatype Result<+T> = Ok(value: T) | Err(error: string)
}

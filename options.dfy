/** Optional values and error-carrying results, used where the Python code
    returns a sentinel-free value or raises an exception. */
module Options {

  datatype Option<T> = None | Some(value: T)

  datatype Result<T, E> = Ok(value: T) | Err(error: E)

  /** The outcome of an operation whose only observable result is whether it
      ran to completion or stopped with an error. */
  datatype Outcome<E> = Pass | Fail(error: E)
}

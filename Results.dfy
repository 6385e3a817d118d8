/** Optional values and the failures the webhook library can raise. */
module Results {

  datatype Option<+T> = None | Some(value: T)

  /** What a call raises: a message passed to `handle_error`, or a Ruby-level
      `NoMethodError` when the request has a shape the library never checks. */
  datatype Error = Raised(message: string) | NoMethodError

  /** A call either returns a value or raises. */
  datatype Result<+T> = Ok(value: T) | Err(error: Error)
}

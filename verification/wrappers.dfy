/** Optional values and results of calls that may throw.

    JavaScript `undefined` where a value may be missing becomes `None`; a call
    that may throw returns a `Result`, whose `Err` carries what was thrown. */
module Wrappers {

  datatype Option<+T> = None | Some(value: T)

  /** What a JavaScript call can throw: the engine's own `TypeError` (reading
      a property of `undefined`, calling a missing method, destructuring a
      non-iterable), or whatever a library throws. */
  datatype Error = TypeError | LibraryError(origin: string)

  datatype Result<+T> = Ok(value: T) | Err(error: Error)
}

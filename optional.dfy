/** The JavaScript `T | null | undefined` of the application, as a value. */
module Optional {

  datatype Option<T> = None | Some(value: T) {

    /** `x ?? d` for a value that is present or absent. */
    function GetOr(d: T): T {
      match this
      case Some(v) => v
      case None => d
    }
  }

  /** The outcome of an HTTP call as seen by its subscriber: the body or the error. */
  datatype Result<T, E> = Ok(value: T) | Err(error: E)
}

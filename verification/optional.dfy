/**
 * Optional values, standing for Python's `None` and for dictionary keys
 * that may be absent.
 */
module Optional {

  datatype Option<+T> = None | Some(value: T) {

    /** The value, or `default` when absent (Python's `d.get(key, default)`). */
    function GetOr(default: T): T {
      match this
      case Some(v) => v
      case None => default
    }
  }

  /** A computation that either yields a value or raises an exception with a message. */
  datatype Result<+T> = Ok(value: T) | Raised(message: string)
}

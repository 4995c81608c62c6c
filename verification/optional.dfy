/** The C library signals "no value" with a NULL pointer; this module gives that
    absence a name. */
module Optional {

  /** A value that may be absent: `None` stands for a NULL pointer in the library. */
  datatype Option<+T> = None | Some(value: T) {

    /** The value, or `default` when absent. */
    function GetOr(default: T): T {
      match this
      case Some(v) => v
      case None => default
    }
  }
}

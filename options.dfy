/** Python's "a value or None", used for every field that may be missing. */
module Options {

  datatype Option<+T> = None | Some(value: T) {

    /** The value, or the given default when None (dict.get with a default). */
    function GetOr(default: T): T {
      match this
      case Some(v) => v
      case None => default
    }
  }
}

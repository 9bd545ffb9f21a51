/** The optional value used across the model: a Go nil pointer, a map entry
    that is absent, or an `error` return that is nil. */
module Options {

  datatype Option<+T> = None | Some(value: T) {

    /** The value, or `default` when there is none. */
    function GetOr(default: T): T {
      match this
      case Some(v) => v
      case None => default
    }
  }
}

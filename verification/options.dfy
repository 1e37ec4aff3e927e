/** A value that may be missing. */
module Options {

  datatype Option<+T> = None | Some(value: T) {
    function Get(default: T): T {
      match this
      case None => default
      case Some(v) => v
    }
  }
}

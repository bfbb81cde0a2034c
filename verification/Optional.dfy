/** A value that may be absent, as the Python sources use `None`. */
module Optional {

  datatype Option<T> = None | Some(value: T) {
    function OrElse(default: T): T {
      match this
      case Some(v) => v
      case None => default
    }
  }
}

/** The optional value used for the many "maybe undefined" fields of the viewer. */
module Options {

  datatype Option<+T> = None | Some(value: T) {

    /** The value, or `default` when there is none (the `??` operator). */
    function GetOr(default: T): T {
      match this
      case Some(v) => v
      case None => default
    }
  }
}

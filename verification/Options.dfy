/** Stock optional values. */
module Options {

  datatype Option<+T> = None | Some(value: T) {

    function GetOr(fallback: T): T {
      match this
      case Some(v) => v
      case None => fallback
    }

    /** The `a ?? b` operator of the source. */
    function OrElse(other: Option<T>): Option<T> {
      if Some? then this else other
    }
  }
}

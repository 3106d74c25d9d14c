/** The optional value used wherever the Python code has `None` or a missing key. */
module Wrappers {

  datatype Option<T> = None | Some(value: T) {

    /** The value held, or `default` when there is none. */
    function GetOr(default: T): T
    {
      match this
      case Some(v) => v
      case None => default
    }

    /** This option when it holds a value, `other` otherwise. */
    function OrElse(other: Option<T>): Option<T>
    {
      if this.Some? then this else other
    }
  }
}

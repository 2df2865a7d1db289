/** Values shared by every module of the model. */
module Common {

  /** Python's `None` next to a present value. */
  datatype Option<T> = None | Some(value: T) {

    /** The value, or `default` when there is none (Python's `x if x is not None else default`). */
    function GetOr(default: T): T {
      match this
      case Some(v) => v
      case None => default
    }
  }
}

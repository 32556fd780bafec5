/** Values shared by every part of the model. */
module Common {

  /** A JavaScript value that may be `undefined` or `null` (None) or present (Some). */
  datatype Option<T> = None | Some(value: T) {

    /** The value, or `default` when there is none. */
    function GetOr(default: T): T {
      if Some? then value else default
    }
  }
}

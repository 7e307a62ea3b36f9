/** The Some/None wrapper used for values the game may not have yet:
    a scene object that is not loaded, a ray that hit nothing, a default
    parameter left undefined. */
module Optional {

  datatype Option<+T> = None | Some(value: T) {

    /** The wrapped value, or `default` when there is none (JavaScript's
        default-parameter rule for `undefined`). */
    function GetOr(default: T): T {
      match this
      case Some(v) => v
      case None => default
    }
  }
}

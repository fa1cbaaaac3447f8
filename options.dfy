/** The conventional Some/None datatype, used for values the script treats as
    possibly absent (a missing file, an unset environment variable, no pick). */
module Options {

  datatype Option<+T> = None | Some(value: T) {

    /** The encapsulated value, or `default` when there is none. */
    function GetOr(default: T): T {
      match this
      case Some(v) => v
      case None => default
    }
  }
}

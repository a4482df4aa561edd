/** The optional value used throughout the detector model: a missing
    `<meta name="generator">` tag, an unknown frontend or backend, a regular
    expression that fails to compile, a search that finds nothing. */
module Options {

  datatype Option<+T> = None | Some(value: T) {

    /** The value, or `default` when there is none. */
    function GetOr(default: T): (r: T)
      ensures Some? ==> r == value
      ensures None? ==> r == default
    {
      match this
      case Some(v) => v
      case None => default
    }
  }
}

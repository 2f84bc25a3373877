/** An optional value: a lookup or an argument that may be absent. */
module Optional {

  datatype Option<+T> = None | Some(value: T) {

    /** The value held, falling back to `fallback` for `None`. */
    function ValueOr(fallback: T): T {
      if Some? then value else fallback
    }
  }
}

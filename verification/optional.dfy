/** A value that may be absent: the model of the source's `T | null` fields. */
module Optional {

  datatype Option<+T> = None | Some(value: T) {

    /** The source's `x ?? fallback`, and the `{ ...current, ...patch }` of one key:
        the value when present, `fallback` otherwise. */
    function GetOr(fallback: T): T {
      if Some? then value else fallback
    }
  }
}

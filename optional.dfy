/** A value that may be missing: JavaScript's `undefined`/`null` for a string or a number. */
module Optional {

  datatype Option<+T> = None | Some(value: T)

  /** The set holding the value, if there is one. */
  function Elements<T>(o: Option<T>): (s: set<T>)
    ensures o.None? ==> s == {}
    ensures o.Some? ==> s == {o.value}
  {
    if o.Some? then {o.value} else {}
  }
}

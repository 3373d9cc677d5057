/** Optional values: JavaScript's `null` / "no match" and the NaN of a failed number parse. */
module Options {

  datatype Option<+T> = None | Some(value: T)

  /** The first of two alternatives that is present: how a regex engine takes
      its first alternative and falls back to the next one only on failure. */
  function OrElse<T>(a: Option<T>, b: Option<T>): (r: Option<T>)
    ensures a.Some? ==> r == a
    ensures a.None? ==> r == b
  {
    if a.Some? then a else b
  }
}

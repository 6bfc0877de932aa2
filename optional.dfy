/** Optional values: nullable columns, absent JSON fields and absent query parameters. */
module Optional {

  datatype Option<T> = None | Some(value: T) {

    /** The wrapped value, or `fallback` when there is none. */
    function GetOr(fallback: T): T {
      if Some? then value else fallback
    }
  }

  /** JavaScript's `s || fallback` on a string that may be missing: a missing or
      empty string is falsy and yields the fallback. */
  function StringOr(s: Option<string>, fallback: string): (r: string)
    ensures s.Some? && s.value != "" ==> r == s.value
    ensures s.None? || s.value == "" ==> r == fallback
  {
    if s.Some? && s.value != "" then s.value else fallback
  }
}

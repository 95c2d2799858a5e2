/** Optional values: a JavaScript `undefined`/`null`, or an argument left out. */
module Wrappers {

  datatype Option<+T> = None | Some(value: T) {

    /** The value, or `default` when there is none. */
    function GetOr(default: T): T {
      match this
      case Some(v) => v
      case None => default
    }
  }

  /** `s[i]` when it exists, `undefined` otherwise. */
  function Get<T>(s: seq<T>, i: nat): (r: Option<T>)
    ensures r.Some? <==> i < |s|
    ensures r.Some? ==> r.value == s[i]
  {
    if i < |s| then Some(s[i]) else None
  }
}

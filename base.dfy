/** Optional values and the JavaScript truthiness of optional strings. */
module Base {

  /** A value that may be absent (`null`/`undefined` in the source). */
  datatype Option<T> = None | Some(value: T) {
    function GetOr(default: T): (r: T)
      ensures Some? ==> r == value
      ensures None? ==> r == default
    {
      if Some? then value else default
    }
  }

  /** An optional string is truthy in JavaScript when it is present and non-empty. */
  predicate Present(s: Option<string>) {
    s.Some? && s.value != ""
  }

  /** `a && b && a === b` on two optional strings: both truthy and equal. */
  predicate SameUrl(a: Option<string>, b: Option<string>) {
    Present(a) && Present(b) && a.value == b.value
  }

  /** `x || null`: a falsy string (absent or empty) becomes absent. */
  function OrNull(s: Option<string>): (r: Option<string>)
    ensures Present(s) ==> r == s
    ensures !Present(s) ==> r == None
    ensures Present(r) <==> Present(s)
  {
    if Present(s) then s else None
  }

  /** `x || fallback` on an optional string. */
  function OrElse(s: Option<string>, fallback: string): (r: string)
    ensures Present(s) ==> r == s.value
    ensures !Present(s) ==> r == fallback
  {
    if Present(s) then s.value else fallback
  }

  function Abs(x: int): (r: nat)
    ensures r == x || r == -x
  {
    if x < 0 then -x else x
  }
}

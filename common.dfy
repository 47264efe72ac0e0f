/** Optional and fallible values, standing in for Python's `None` and for
    exceptions that the script lets escape. */
module Wrappers {

  datatype Option<+T> = None | Some(value: T)

  datatype Result<+T, +E> = Success(value: T) | Failure(error: E)

  /** Python truthiness of a value that is either `None` or a `str`:
      both `None` and the empty string are false. */
  predicate Truthy(v: Option<string>) {
    v.Some? && v.value != ""
  }
}

/** The part of a decoded JSON document the script looks at: a key of an
    object is either missing, mapped to `null`, or mapped to a string.
    Numbers, booleans, lists and nested objects in those positions are not
    part of this model. */
module Json {

  import Wrappers

  datatype JsonValue = Absent | Null | Str(s: string)

  /** `obj.get(key)`: a missing key and `null` both give `None`. */
  function Get(v: JsonValue): (r: Wrappers.Option<string>)
    ensures r.Some? <==> v.Str?
    ensures r.Some? ==> r.value == v.s
  {
    match v
    case Str(s) => Wrappers.Some(s)
    case _ => Wrappers.None
  }

  /** `obj.get(key, default)`: only a MISSING key gives the default; a key
      mapped to `null` gives `None`. */
  function GetOr(v: JsonValue, default: string): (r: Wrappers.Option<string>)
    ensures v.Absent? ==> r == Wrappers.Some(default)
    ensures v.Null? ==> r.None?
    ensures v.Str? ==> r == Wrappers.Some(v.s)
  {
    match v
    case Absent => Wrappers.Some(default)
    case Null => Wrappers.None
    case Str(s) => Wrappers.Some(s)
  }
}

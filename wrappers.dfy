/** Optional values, and the JavaScript value rules the handlers rely on. */
module Wrappers {

  /** A nullable value: a missing column, an absent request field, a query that found nothing. */
  datatype Option<+T> = None | Some(value: T) {
    function GetOr(default: T): T {
      match this
      case Some(v) => v
      case None => default
    }
  }

  /** An operation that either gives a value or fails with an error message. */
  datatype Result<+T> = Ok(value: T) | Err(error: string)

  /** A JSON body field, where `undefined` (left out) and `null` (sent as null) differ. */
  datatype Field<+T> = Undefined | Null | Present(value: T)

  /**
   * A patch field written over a nullable column: a field left out keeps the
   * column, an explicit null clears it, a value replaces it.
   */
  function ApplyField<T>(f: Field<T>, current: Option<T>): (r: Option<T>)
    ensures f.Undefined? ==> r == current
    ensures f.Null? ==> r.None?
    ensures f.Present? ==> r == Some(f.value)
  {
    match f
    case Undefined => current
    case Null => None
    case Present(v) => Some(v)
  }

  /** JavaScript truthiness of an optional string: present and not "". */
  predicate Truthy(s: Option<string>) {
    s.Some? && s.value != ""
  }

  /** `s || d` for an optional string. */
  function Or(s: Option<string>, d: string): string {
    if Truthy(s) then s.value else d
  }

  /** `s || null` for an optional string: the empty string becomes null. */
  function OrNull(s: Option<string>): Option<string> {
    if Truthy(s) then s else None
  }

  /** `a ?? b`: only null/undefined fall through, the empty string does not. */
  function Coalesce<T>(a: Option<T>, b: Option<T>): Option<T> {
    if a.Some? then a else b
  }
}

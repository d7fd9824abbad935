/** A JSON field that a request body may or may not carry. */
module Wrappers {

  datatype Option<T> = None | Some(value: T)

  /** The field's value, or `fallback` when the field is absent. */
  function ValueOr<T>(o: Option<T>, fallback: T): (v: T)
    ensures o.Some? ==> v == o.value
    ensures o.None? ==> v == fallback
  {
    match o
    case Some(x) => x
    case None => fallback
  }
}

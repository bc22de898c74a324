/** The few JavaScript value notions the handlers depend on: optional values,
    request-body fields after destructuring, truthiness and string conversion. */
module Js {

  datatype Option<+T> = None | Some(value: T)

  datatype Result<+T, +E> = Ok(value: T) | Err(error: E)

  /** A field destructured from a parsed JSON body or token payload: missing
      (`undefined`), `null`, or a string. Dafny's structural equality on this
      type coincides with JavaScript's strict equality `===` on these values. */
  datatype Field = Absent | Null | Str(s: string)

  /** JavaScript truthiness: of these values only a non-empty string is truthy. */
  predicate Truthy(f: Field)
  {
    f.Str? && f.s != ""
  }

  /** `String(x)`, the conversion `RegExp.prototype.test` and template literals apply. */
  function Text(f: Field): string
  {
    match f
    case Absent => "undefined"
    case Null => "null"
    case Str(s) => s
  }

  /** `a || fallback` for a header or environment value that may be missing:
      the empty string counts as unset. */
  function OrElse(a: Option<string>, fallback: string): (r: string)
    ensures a.Some? && a.value != "" ==> r == a.value
    ensures (a.None? || a.value == "") ==> r == fallback
  {
    if a.Some? && a.value != "" then a.value else fallback
  }

  /** A header read by `headers.get`, interpolated into a template literal:
      a missing header becomes the text "null". */
  function HeaderText(h: Option<string>): string
  {
    match h
    case None => "null"
    case Some(v) => v
  }
}

/** JavaScript value conventions the portal relies on: optional values
    (`null`/`undefined`), truthiness, the `x || default` idiom and the
    empty-string-to-null conversion used by every payload builder. */
module Js {

  datatype Option<+T> = None | Some(value: T) {
    function GetOr(default: T): T {
      match this
      case Some(v) => v
      case None => default
    }
  }

  /** The JSON values a remote procedure call can answer with. Numbers are
      modelled as reals; NaN is not modelled. */
  datatype JsValue =
    | JsUndefined
    | JsNull
    | JsBool(b: bool)
    | JsNumber(n: real)
    | JsString(s: string)
    | JsObject

  /** JavaScript truthiness: `if (v)` takes the branch exactly for these values. */
  predicate IsTruthy(v: JsValue) {
    match v
    case JsUndefined => false
    case JsNull => false
    case JsBool(b) => b
    case JsNumber(n) => n != 0.0
    case JsString(s) => s != ""
    case JsObject => true
  }

  /** Truthiness of an optional string field: present and non-empty. */
  predicate Present(o: Option<string>) {
    o.Some? && o.value != ""
  }

  /** `s || d` for a string: the empty string is falsy. */
  function StrOr(s: string, d: string): (r: string)
    ensures s != "" ==> r == s
    ensures s == "" ==> r == d
  {
    if s == "" then d else s
  }

  /** `o || d` for a nullable string: null and "" both fall back to `d`. */
  function OptStrOr(o: Option<string>, d: string): (r: string)
    ensures o.Some? && o.value != "" ==> r == o.value
    ensures o.None? || o.value == "" ==> r == d
  {
    match o
    case None => d
    case Some(s) => StrOr(s, d)
  }

  /** `x || d` for a number: 0 is falsy. */
  function NumOr(x: real, d: real): (r: real)
    ensures x != 0.0 ==> r == x
    ensures x == 0.0 ==> r == d
  {
    if x == 0.0 then d else x
  }

  /** `o || d` for a nullable number: null and 0 both fall back to `d`. */
  function OptNumOr(o: Option<real>, d: real): (r: real)
    ensures o.Some? && o.value != 0.0 ==> r == o.value
    ensures o.None? || o.value == 0.0 ==> r == d
  {
    match o
    case None => d
    case Some(x) => NumOr(x, d)
  }

  /** `s || null`: what the payload builders send for optional text fields. */
  function EmptyToNull(s: string): (r: Option<string>)
    ensures r.None? <==> s == ""
    ensures r.Some? ==> r.value == s
  {
    if s == "" then None else Some(s)
  }

  /** `o || ""`: how forms are seeded from nullable columns. */
  function NullToEmpty(o: Option<string>): (r: string)
    ensures o.Some? ==> r == o.value
    ensures o.None? ==> r == ""
  {
    match o
    case None => ""
    case Some(s) => s
  }

  /** Seeding a form field and sending it back unchanged stores null exactly
      when the column held null or the empty string. */
  lemma NullRoundTrip(o: Option<string>)
    ensures EmptyToNull(NullToEmpty(o)) == (if o == Some("") then None else o)
  {
  }
}

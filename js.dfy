/** JavaScript values as the application handles them: optional values,
    optional/nullable record fields, the categories of a JSON request value,
    and the truthiness tests behind `||`. */
module Js {

  datatype Option<+T> = None | Some(value: T) {
    /** The value, or `default` when absent. */
    function GetOr(default: T): T {
      match this
      case Some(v) => v
      case None => default
    }
  }

  /** A field that may be missing from an object (`undefined`), present as
      `null`, or present as a string. */
  datatype Field = Undefined | Null | Text(s: string) {
    /** JavaScript truthiness: only a non-empty string is truthy. */
    predicate Truthy() {
      Text? && s != ""
    }
  }

  /** The JSON value of one member of a request body, by the categories a
      schema validator tells apart. */
  datatype Json = JNull | JBool(b: bool) | JNumber | JString(s: string) | JArray | JObject

  /** `v || null` for a value that is absent or a string. */
  function OrNull(v: Option<string>): (r: Option<string>)
    ensures r.Some? <==> v.Some? && v.value != ""
    ensures r.Some? ==> r == v
  {
    if v.Some? && v.value != "" then v else None
  }

  /** `v || d` for a value that is absent or a string. */
  function OrElse(v: Option<string>, d: string): (r: string)
    ensures d != "" ==> r != ""
    ensures r == d || (v == Some(r) && r != "")
    ensures v.Some? && v.value != "" ==> r == v.value
    ensures !(v.Some? && v.value != "") ==> r == d
  {
    if v.Some? && v.value != "" then v.value else d
  }

  /** `f || null` for an optional, nullable field. */
  function FieldOrNull(f: Field): (r: Option<string>)
    ensures r.Some? <==> f.Truthy()
    ensures r.Some? ==> f == Text(r.value)
  {
    if f.Truthy() then Some(f.s) else None
  }
}

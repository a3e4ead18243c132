/**
 * Values of the request layer: optional body fields, JSON values, JavaScript
 * truthiness, and the field-update conventions the controllers rely on.
 *
 * A body field that the client did not send is `None` (JavaScript `undefined`).
 * Numbers are integers (amounts in the smallest currency unit).
 */
module Js {

  datatype Option<+T> = None | Some(value: T)

  /** A JSON value as it arrives in a request body. */
  datatype Json =
    | JNull
    | JBool(b: bool)
    | JNum(n: int)
    | JStr(s: string)
    | JArray(elems: seq<Json>)
    | JObject(fields: map<string, Json>)

  /** JavaScript truthiness of a possibly absent body field. */
  predicate Truthy(v: Option<Json>) {
    match v
    case None => false
    case Some(j) =>
      match j
      case JNull => false
      case JBool(b) => b
      case JNum(n) => n != 0
      case JStr(s) => s != ""
      case JArray(_) => true
      case JObject(_) => true
  }

  /** Truthiness of a numeric field: present and nonzero. */
  predicate TruthyInt(v: Option<int>) {
    v.Some? && v.value != 0
  }

  /** Truthiness of a string field: present and nonempty. */
  predicate TruthyStr(v: Option<string>) {
    v.Some? && v.value != ""
  }

  /** A numeric body field as the JSON value it arrived as. */
  function NumJson(v: Option<int>): Option<Json> {
    if v.Some? then Some(JNum(v.value)) else None
  }

  /** A string body field as the JSON value it arrived as. */
  function StrJson(v: Option<string>): Option<Json> {
    if v.Some? then Some(JStr(v.value)) else None
  }

  /** The numeric and string truthiness tests agree with truthiness of the JSON value. */
  lemma TruthyIntAgrees(v: Option<int>)
    ensures TruthyInt(v) == Truthy(NumJson(v))
  {
  }

  lemma TruthyStrAgrees(v: Option<string>)
    ensures TruthyStr(v) == Truthy(StrJson(v))
  {
  }

  /** `typeof j === 'object'`: true of null, arrays and objects. */
  predicate IsObjectType(j: Json) {
    j.JNull? || j.JArray? || j.JObject?
  }

  /** `v ? Number(v) : otherwise` */
  function IfTruthy(v: Option<int>, otherwise: int): (r: int)
    ensures TruthyInt(v) ==> r == v.value
    ensures !TruthyInt(v) ==> r == otherwise
  {
    if TruthyInt(v) then v.value else otherwise
  }

  /**
   * A field handed to the database update as is: `undefined` leaves the
   * stored value alone, anything else replaces it.
   */
  function IfDefined<T>(v: Option<T>, current: T): (r: T)
    ensures v.None? ==> r == current
    ensures v.Some? ==> r == v.value
  {
    if v.Some? then v.value else current
  }

  /** `v ?? fallback` for a field where `null` and `undefined` both are `None`. */
  function Coalesce(v: Option<int>, fallback: int): (r: int)
    ensures v.Some? ==> r == v.value
    ensures v.None? ==> r == fallback
  {
    if v.Some? then v.value else fallback
  }

  /** An HTTP reply: a success status with a body, or an error status with its message. */
  datatype Reply<T> = Ok(status: int, body: T) | Error(status: int, message: string)
}

/**
 * Decoded JSON request bodies and JavaScript's truthiness on them.
 * Numbers are integers here; the fractional part of a JSON number plays no
 * role in the request validators.
 */
module JsValue {

  import opened Maybe

  datatype Json =
    | JNull
    | JBool(b: bool)
    | JNum(n: int)
    | JStr(s: string)
    | JArr(elems: seq<Json>)
    | JObj(fields: map<string, Json>)

  /** `!!v`: null, false, 0 and the empty string are falsy; arrays and objects are truthy. */
  predicate Truthy(v: Json) {
    match v
    case JNull => false
    case JBool(b) => b
    case JNum(n) => n != 0
    case JStr(s) => s != ""
    case JArr(_) => true
    case JObj(_) => true
  }

  /**
   * `v[key]` for the keys the validators read (`id`, `name`, `year`,
   * `month`, `value`, `before`, `after`): only an object's own fields answer.
   * Inherited keys such as `length` or `toString` are not modelled.
   */
  function Field(v: Json, key: string): (r: Option<Json>)
    ensures r.Some? <==> v.JObj? && key in v.fields
  {
    if v.JObj? && key in v.fields then Some(v.fields[key]) else None
  }

  /** `x == undefined` in loose equality: true for undefined and for null. */
  predicate Nullish(x: Option<Json>) {
    x.None? || x.value.JNull?
  }
}

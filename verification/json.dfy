/** JSON-like request bodies and stored payloads, with JavaScript truthiness. */
module JsonValues {
  import opened Wrappers

  /** A JSON value. Numbers are integers here; floating point is not modelled. */
  datatype Json =
    | JNull
    | JBool(b: bool)
    | JNum(n: int)
    | JStr(s: string)
    | JArr(items: seq<Json>)
    | JObj(fields: map<string, Json>)

  /**
   * JavaScript truthiness of a value that may be `undefined` (None):
   * `undefined`, `null`, `false`, `0` and `""` are falsy, everything else,
   * every array and every object included, is truthy.
   */
  predicate Truthy(v: Option<Json>)
    // `undefined` and `null` are never truthy
    ensures Truthy(v) ==> v.Some? && !v.value.JNull?
    // an array or an object is truthy even when empty
    ensures v.Some? && (v.value.JArr? || v.value.JObj?) ==> Truthy(v)
  {
    match v
    case None => false
    case Some(JNull) => false
    case Some(JBool(b)) => b
    case Some(JNum(n)) => n != 0
    case Some(JStr(s)) => s != ""
    case Some(JArr(_)) => true
    case Some(JObj(_)) => true
  }

  /** `v?.key`: a member of an object, `undefined` for anything else or a missing key. */
  function Member(v: Option<Json>, key: string): (m: Option<Json>)
    ensures m.Some? <==> v.Some? && v.value.JObj? && key in v.value.fields
    ensures m.Some? ==> m.value == v.value.fields[key]
  {
    if v.Some? && v.value.JObj? && key in v.value.fields then Some(v.value.fields[key]) else None
  }

  /** `{}` */
  const EmptyObject: Json := JObj(map[])
}

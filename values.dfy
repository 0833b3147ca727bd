/** Values that cross the HTTP boundary: optional request fields and the
    schemaless JSON payload kept in a record's `meta` field. */
module Values {

  /** A request field that may be absent (JavaScript `undefined`). */
  datatype Option<+T> = None | Some(value: T)

  /** The outcome of a step that can fail with an error value. */
  datatype Result<+T, +E> = Ok(value: T) | Err(error: E)

  /** A JSON value as parsed from a request body. Numbers are kept exact. */
  datatype Json =
    | JNull
    | JBool(b: bool)
    | JNumber(n: real)
    | JString(s: string)
    | JArray(items: seq<Json>)
    | JObject(fields: map<string, Json>)

  /** The `{}` literal the handlers and the schemas fall back to for `meta`. */
  const EmptyObject: Json := JObject(map[])

  /** JavaScript truthiness of an optional JSON value: `undefined`, `null`,
      `false`, `0` and `""` are falsy; every array and object is truthy. */
  predicate Truthy(v: Option<Json>)
  {
    match v
    case None => false
    case Some(JNull) => false
    case Some(JBool(b)) => b
    case Some(JNumber(n)) => n != 0.0
    case Some(JString(s)) => s != ""
    case Some(JArray(_)) => true
    case Some(JObject(_)) => true
  }

  /** JavaScript truthiness of an optional string field (`if (source) ...`). */
  predicate Filled(s: Option<string>)
  {
    s.Some? && s.value != ""
  }

  /** `meta || {}`: the supplied value when truthy, the empty object otherwise. */
  function OrEmpty(meta: Option<Json>): (r: Json)
    ensures Truthy(Some(r))
    ensures Truthy(meta) ==> r == meta.value
    ensures !Truthy(meta) ==> r == EmptyObject
  {
    if Truthy(meta) then meta.value else EmptyObject
  }
}

/** The slice of JavaScript's JSON values that the controllers inspect. */
module Json {
  import opened Wrappers

  /** A parsed JSON document. Numbers are integers; fractional numbers are not modelled. */
  datatype Json =
    | JNull
    | JBool(b: bool)
    | JNumber(n: int)
    | JString(s: string)
    | JArray(items: seq<Json>)
    | JObject(fields: map<string, Json>)

  /** The `{}` every caller substitutes for a body that does not parse. */
  const EmptyObject: Json := JObject(map[])

  /** `await response.json().catch(() => ({}))`: the parsed body, `None` meaning the
      body did not parse. */
  function ParsedOrEmpty(body: Option<Json>): (data: Json)
    ensures body.Some? ==> data == body.value
    ensures body.None? ==> data == EmptyObject
  {
    body.GetOr(EmptyObject)
  }

  /** Property read `data?.key` on a non-null value: only objects carry named
      properties here, anything else reads as `undefined` (`None`). */
  function Get(data: Json, key: string): (v: Option<Json>)
    ensures v.Some? <==> data.JObject? && key in data.fields
    ensures v.Some? ==> v.value == data.fields[key]
  {
    if data.JObject? && key in data.fields then Some(data.fields[key]) else None
  }

  /** JavaScript truthiness of a possibly-undefined JSON value. */
  predicate Truthy(v: Option<Json>) {
    match v
    case None => false
    case Some(JNull) => false
    case Some(JBool(b)) => b
    case Some(JNumber(n)) => n != 0
    case Some(JString(s)) => s != ""
    case Some(JArray(_)) => true
    case Some(JObject(_)) => true
  }

  /** `typeof v === 'string' ? v : null`. */
  function AsString(v: Option<Json>): (s: Option<string>)
    ensures s.Some? <==> v.Some? && v.value.JString?
    ensures s.Some? ==> v.value == JString(s.value)
  {
    if v.Some? && v.value.JString? then Some(v.value.s) else None
  }
}

/**
 * JSON-compatible values, the shape of both the materialised document and the
 * values a schema keyword carries, together with Python's truthiness on them.
 */
module Json {

  /** A JSON value after `json.loads(json.dumps(...))`: numbers are integers here. */
  datatype JsonValue =
    | JNull
    | JBool(b: bool)
    | JInt(i: int)
    | JString(s: string)
    | JArray(items: seq<JsonValue>)
    | JObject(fields: map<string, JsonValue>)

  /** The empty object `{}`. */
  const EmptyObject: JsonValue := JObject(map[])

  /** Python's `bool(v)`: None, False, 0 and empty containers are falsy, everything else truthy. */
  predicate Truthy(v: JsonValue)
  {
    match v
    case JNull => false
    case JBool(b) => b
    case JInt(i) => i != 0
    case JString(s) => |s| > 0
    case JArray(items) => |items| > 0
    case JObject(fields) => |fields| > 0
  }

  /** Python's `a or b`: the left operand when it is truthy, the right one otherwise. */
  function Or(a: JsonValue, b: JsonValue): JsonValue
  {
    if Truthy(a) then a else b
  }

  /** The falsy JSON values are exactly null, false, 0, "", [] and {}. */
  lemma FalsyValues(v: JsonValue)
    ensures !Truthy(v) <==>
      v == JNull || v == JBool(false) || v == JInt(0) || v == JString("") || v == JArray([]) || v == EmptyObject
  {
  }

  /** `v or {}` keeps a truthy value, turns every falsy one into `{}`, and so is never null. */
  lemma OrEmptyObject(v: JsonValue)
    ensures Truthy(v) ==> Or(v, EmptyObject) == v
    ensures !Truthy(v) ==> Or(v, EmptyObject) == EmptyObject
    ensures Or(v, EmptyObject) != JNull
    ensures Truthy(Or(v, EmptyObject)) || Or(v, EmptyObject) == EmptyObject
  {
  }
}

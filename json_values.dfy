/** A JSON document as `json.load` hands it to Python. */
module JsonValues {

  /** Objects are maps: the modelled code only looks keys up, so their order does not matter. */
  datatype Json =
    | JNull
    | JBool(b: bool)
    | JNumber(n: real)
    | JString(s: string)
    | JArray(items: seq<Json>)
    | JObject(fields: map<string, Json>)

  /** Python truthiness of the decoded value (`None`, `False`, zero and empty containers are false). */
  predicate Truthy(j: Json) {
    match j
    case JNull => false
    case JBool(b) => b
    case JNumber(n) => n != 0.0
    case JString(s) => |s| > 0
    case JArray(items) => |items| > 0
    case JObject(fields) => |fields| > 0
  }

  /** `type(v).__name__` for the decoded value; a whole number is reported as an `int`. */
  function TypeName(j: Json): (name: string)
    ensures j.JString? <==> name == "str"
  {
    match j
    case JNull => "NoneType"
    case JBool(_) => "bool"
    case JNumber(n) => if n.Floor as real == n then "int" else "float"
    case JString(_) => "str"
    case JArray(_) => "list"
    case JObject(_) => "dict"
  }
}

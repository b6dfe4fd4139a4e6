/** Parsed JSON values as Python sees them after `json.loads` or Flask's
    `get_json`, with the two Python built-ins the routes apply to them:
    truthiness (`if not x`) and `len(x)`. */
module JsonValue {
  import opened Common

  /** A JSON document. Numbers are reals; Python's int/float split does not
      matter to the code modelled here. Objects are dictionaries. */
  datatype Json =
    | JNull
    | JBool(b: bool)
    | JNum(n: real)
    | JStr(s: string)
    | JArr(items: seq<Json>)
    | JObj(fields: map<string, Json>)

  /** Python's bool(x): None, False, 0, "", [] and {} are false. */
  predicate Truthy(j: Json) {
    match j
    case JNull => false
    case JBool(b) => b
    case JNum(n) => n != 0.0
    case JStr(s) => |s| > 0
    case JArr(items) => |items| > 0
    case JObj(fields) => |fields| > 0
  }

  /** Python's len(x): defined for strings, lists and dictionaries; for
      anything else it raises TypeError (None here). */
  function PyLen(j: Json): (r: Option<nat>)
    ensures r.Some? <==> j.JStr? || j.JArr? || j.JObj?
    ensures r.Some? ==> (r.value > 0 <==> Truthy(j))
  {
    match j
    case JStr(s) => Some(|s|)
    case JArr(items) => Some(|items|)
    case JObj(fields) => Some(|fields|)
    case _ => None
  }

  /** `d.get(key)` on a dictionary: a missing key reads as None, which is
      the same Python value as a JSON null. */
  function Get(fields: map<string, Json>, key: string): (r: Json)
    ensures key !in fields ==> r == JNull
    ensures key in fields ==> r == fields[key]
  {
    if key in fields then fields[key] else JNull
  }
}

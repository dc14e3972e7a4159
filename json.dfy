/**
 * Parsed JSON documents, as Python's `json.loads` returns them, and the
 * two ways the modelled code reads a field of one.
 */
module JsonValues {
  import opened Wrappers
  import opened Errors

  /** A parsed JSON document; numbers are integers here. */
  datatype Json =
    | JNull
    | JBool(b: bool)
    | JNumber(n: int)
    | JString(s: string)
    | JArray(items: seq<Json>)
    | JObject(fields: map<string, Json>)

  /** Python's truth value of a parsed value: false exactly for null, false, 0 and the empty string, list and object. */
  function Truthy(j: Json): (r: bool)
    ensures !r <==> j == JNull || j == JBool(false) || j == JNumber(0) || j == JString([]) || j == JArray([]) || j == JObject(map[])
  {
    match j
    case JNull => false
    case JBool(b) => b
    case JNumber(n) => n != 0
    case JString(s) => s != []
    case JArray(items) => items != []
    case JObject(f) => f != map[]
  }

  /** `d[key]`: a missing key raises KeyError, and indexing something that is not an object TypeError. */
  function Field(d: Json, key: string): (r: Result<Json, Error>)
    ensures r.Success? <==> d.JObject? && key in d.fields
    ensures r.Success? ==> r.value == d.fields[key]
    ensures r.Failure? ==> r.error == (if d.JObject? then KeyError else TypeError)
  {
    match d
    case JObject(f) => if key in f then Success(f[key]) else Failure(KeyError)
    case _ => Failure(TypeError)
  }

  /** `d.get(key, default)`: only objects have `.get`. */
  function FieldOr(d: Json, key: string, default: Json): (r: Result<Json, Error>)
    ensures r.Success? <==> d.JObject?
    ensures r.Success? ==> r.value == if key in d.fields then d.fields[key] else default
    ensures r.Failure? ==> r.error == AttributeError
  {
    match d
    case JObject(f) => Success(if key in f then f[key] else default)
    case _ => Failure(AttributeError)
  }
}

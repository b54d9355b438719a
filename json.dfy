/**
 * The decoded JSON the back end handles: request bodies bound to
 * `Map<String, Object>` and the provider payloads it stores. Parsing itself
 * belongs to the JSON libraries and is not part of this model.
 */
module Json {
  import opened Wrappers
  import opened Http

  /** A member value: JSON null, a string, or anything else, which only
      matters through the text its `toString()` produces. */
  datatype Json = JNull | JStr(s: string) | JOther(rendering: string)

  type JsonObject = map<string, Json>

  /** Stored JSON text: an object, or text that does not parse as one. */
  datatype JsonText = Object(fields: JsonObject) | NotAnObject(text: string)

  /** `map.get(key) != null ? map.get(key).toString() : null`; a JSON null
      decodes to a Java null, so it reads as absent. */
  function GetString(m: JsonObject, key: string): (r: Option<string>)
    ensures r.None? <==> key !in m || m[key] == JNull
    ensures key in m && m[key].JStr? ==> r == Some(m[key].s)
    ensures key in m && m[key].JOther? ==> r == Some(m[key].rendering)
  {
    if key !in m then None
    else match m[key]
      case JNull => None
      case JStr(s) => Some(s)
      case JOther(rendering) => Some(rendering)
  }

  /** `(String) map.get(key)`: a string, null, or a ClassCastException. */
  function CastString(m: JsonObject, key: string): (r: Result<Option<string>, Failure>)
    ensures r.Err? <==> key in m && m[key].JOther?
    ensures r.Err? ==> r.error == ClassCast
    ensures r == Ok(None) <==> key !in m || m[key] == JNull
    ensures key in m && m[key].JStr? ==> r == Ok(Some(m[key].s))
  {
    if key !in m then Ok(None)
    else match m[key]
      case JNull => Ok(None)
      case JStr(s) => Ok(Some(s))
      case JOther(_) => Err(ClassCast)
  }
}

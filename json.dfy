/**
 * An already-parsed JSON value, as `JSON.parse` or `Request.json()` hands it
 * to the validators. Objects are maps from keys to values (a repeated key in
 * the text keeps its last value, as `JSON.parse` does).
 */
module Json {

  datatype Json =
    | JNull
    | JBool(b: bool)
    | JNumber(n: real)
    | JString(s: string)
    | JArray(items: seq<Json>)
    | JObject(members: map<string, Json>)

  /** The two field names of a record, in both the model's reply and the
      create-record request. */
  const TitleKey := "title"
  const DescriptionKey := "description"

  /** The type name the schema validator reports for a value of the wrong type. */
  function TypeName(j: Json): (r: string)
    ensures r in {"null", "boolean", "number", "string", "array", "object"}
    ensures r == "string" <==> j.JString?
  {
    match j
    case JNull => "null"
    case JBool(_) => "boolean"
    case JNumber(_) => "number"
    case JString(_) => "string"
    case JArray(_) => "array"
    case JObject(_) => "object"
  }
}

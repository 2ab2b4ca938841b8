/** The values `json.loads` produces, as far as the bot inspects them. */
module JsonValues {

  /** A decoded JSON value; an object is a Python dict from keys to values. */
  datatype Json =
    | JNull
    | JBool(b: bool)
    | JNumber(n: int)
    | JString(s: string)
    | JArray(items: seq<Json>)
    | JObject(fields: map<string, Json>)
}

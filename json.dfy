/** JSON values, as `JSON.parse` produces them. Parsing and printing are not
    modelled; they enter the model as functions passed in by the caller. */
module Json {

  datatype Json =
    | JNull
    | JBool(b: bool)
    | JNumber(n: real)
    | JString(s: string)
    | JArray(items: seq<Json>)
    | JObject(fields: seq<(string, Json)>)
}

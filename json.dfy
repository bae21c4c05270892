/** JSON values as `JSON.parse` produces them and `JSON.stringify` consumes
    them. Numbers are kept as exact reals; an object is a map from keys to
    values, so key order is not represented. */
module Json {

  datatype Json =
    | JNull
    | JBool(b: bool)
    | JNumber(n: real)
    | JString(s: string)
    | JArray(items: seq<Json>)
    | JObject(fields: map<string, Json>)

  /** A record as the forms hold it: field name to value. */
  type Record = map<string, Json>

  /** JavaScript's falsy values among JSON values. */
  predicate Falsy(j: Json): (r: bool)
    ensures r ==> !j.JArray? && !j.JObject?
    ensures j.JString? ==> (r <==> j.s == "")
  {
    j == JNull || j == JBool(false) || j == JNumber(0.0) || j == JString("")
  }
}

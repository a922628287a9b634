/** The JSON values exchanged with Cloudflare; a number is kept as its text. */
module Json {
  import opened Common

  datatype Json =
    | JNull
    | JBool(b: bool)
    | JNumber(text: string)
    | JString(s: string)
    | JArray(items: seq<Json>)
    | JObject(fields: map<string, Json>)

  function Get(v: Json, key: string): Option<Json> {
    if v.JObject? && key in v.fields then Some(v.fields[key]) else None
  }

  function GetString(v: Json, key: string): Option<string> {
    match Get(v, key)
    case Some(JString(s)) => Some(s)
    case _ => None
  }
}

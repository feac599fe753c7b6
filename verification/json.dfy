/** JSON values as the server decodes them from the app store's search API. */
module Json {

  datatype Json =
    | JNull
    | JBool(b: bool)
    | JNum(n: real)
    | JStr(s: string)
    | JArr(items: seq<Json>)
    | JObj(fields: map<string, Json>)

  /** Python's `dict.get(key)`: the value, or `None` (serialised as null) when the key is absent. */
  function Get(obj: map<string, Json>, key: string): (v: Json)
    ensures key in obj ==> v == obj[key]
    ensures key !in obj ==> v == JNull
  {
    GetOr(obj, key, JNull)
  }

  /** Python's `dict.get(key, default)`. */
  function GetOr(obj: map<string, Json>, key: string, default: Json): (v: Json)
    ensures key in obj ==> v == obj[key]
    ensures key !in obj ==> v == default
  {
    if key in obj then obj[key] else default
  }
}

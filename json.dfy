/** Decoded JSON request bodies and the PHP conversions the controllers and
    services apply to them. */
module Json {
  import opened Text

  /** A scalar JSON value as `json_decode($body, true)` produces it. */
  datatype Json = JNull | JBool(b: bool) | JInt(i: int) | JString(s: string)

  /** A decoded JSON object: `json_decode` with associative arrays. */
  type JsonObject = map<string, Json>

  /** A request body: not decodable (or the literal `null`), or a JSON object. */
  datatype Body = Undecodable | Object(fields: JsonObject)

  /** `!$data` after `json_decode`: nothing decoded, or an empty array. */
  predicate IsEmptyBody(b: Body) {
    b.Undecodable? || b.fields == map[]
  }

  /** PHP `isset($data[$key])`: the key is present and its value is not null. */
  predicate IsSet(m: JsonObject, key: string) {
    key in m && m[key] != JNull
  }

  /** PHP truthiness, `(bool) $v` and `if ($v)`: false, 0, "" and "0" are false. */
  predicate Truthy(j: Json) {
    match j
    case JNull => false
    case JBool(b) => b
    case JInt(i) => i != 0
    case JString(s) => s != "" && s != "0"
  }

  /** The string a scalar becomes when passed to a `string` parameter (weak typing). */
  function AsString(j: Json): string
    requires !j.JNull?
  {
    match j
    case JBool(b) => if b then "1" else ""
    case JInt(i) => IntToString(i)
    case JString(s) => s
  }
}

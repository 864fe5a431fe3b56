/** The JSON documents the quiz and the editor read and write, and Python's
    `record.get(key) or default` idiom that both loaders use on them. */
module Json {
  import opened Common

  /** A decoded JSON value (numbers are kept as integers). */
  datatype Json =
    | JNull
    | JBool(b: bool)
    | JNumber(n: int)
    | JString(s: string)
    | JArray(items: seq<Json>)
    | JObject(fields: map<string, Json>)

  /** Python's truthiness of the decoded value: `None`, `False`, `0`, `""`, `[]` and `{}` are false. */
  predicate Truthy(j: Json)
  {
    match j
    case JNull => false
    case JBool(b) => b
    case JNumber(n) => n != 0
    case JString(s) => s != ""
    case JArray(items) => items != []
    case JObject(fields) => fields != map[]
  }

  /** `obj.get(key, default)`. */
  function Lookup(fields: map<string, Json>, key: string, default: Json): Json
  {
    if key in fields then fields[key] else default
  }

  /** `obj.get(key)` is truthy. */
  predicate Present(fields: map<string, Json>, key: string)
  {
    key in fields && Truthy(fields[key])
  }

  /** The text of a string value; `None` for a value of any other JSON type. */
  function AsText(j: Json): (r: Option<string>)
    ensures r.Some? <==> j.JString?
  {
    if j.JString? then Some(j.s) else None
  }

  /** `obj.get(key) or default` where the field must hold text: `None` when the field holds a
      truthy value that is not a string. */
  function TextOr(fields: map<string, Json>, key: string, default: string): (r: Option<string>)
    ensures key in fields && fields[key] == JString("") ==> r == Some(default)
    ensures key !in fields ==> r == Some(default)
    ensures key in fields && fields[key].JString? && fields[key].s != "" ==> r == Some(fields[key].s)
  {
    if Present(fields, key) then AsText(fields[key]) else Some(default)
  }
}

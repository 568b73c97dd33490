/** Values shared by the request engine: optional values, dictionary
    fields of any JSON type, and the abstract JSON value type. */
module Values {

  datatype Option<+T> = None | Some(value: T)

  /** The outcome of a step that may raise: a value, or the text of the
      exception that escaped. */
  datatype Result<+T> = Ok(value: T) | Err(detail: string)

  /** A value stored in a header or auth dictionary.  Those dictionaries
      are decoded from user-supplied JSON, so a value is either a string
      or some other JSON value; `shown` is what Python's `str` renders the
      latter as (`True`, `42`, `None`, ...). */
  datatype Field = Text(text: string) | Other(shown: string)

  /** `str(value)`: the string form of a field. */
  function Show(f: Field): (s: string)
    ensures f.Text? ==> s == f.text
  {
    match f
    case Text(t) => t
    case Other(t) => t
  }

  /** The JSON value a successful `json.loads` produces.  Numbers keep
      their literal text, so no floating point is involved. */
  datatype Json =
    | JNull
    | JBool(b: bool)
    | JNumber(literal: string)
    | JString(s: string)
    | JArray(items: seq<Json>)
    | JObject(members: seq<(string, Json)>)

  /** What a call of `json.loads` does: return a value, raise
      `JSONDecodeError` (Malformed), or raise any other exception
      (Crashed, e.g. a `RecursionError` on deeply nested input). */
  datatype JsonParse = Parsed(value: Json) | Malformed | Crashed(detail: string)

  /** `d.get(k)` on a dictionary. */
  function Lookup<V>(d: map<string, V>, k: string): (r: Option<V>)
    ensures r.Some? <==> k in d
    ensures r.Some? ==> r.value == d[k]
  {
    if k in d then Some(d[k]) else None
  }

  /** `d.get(k, default)` on a dictionary. */
  function GetOr<V>(d: map<string, V>, k: string, default: V): (r: V)
    ensures k in d ==> r == d[k]
    ensures k !in d ==> r == default
  {
    if k in d then d[k] else default
  }
}

/**
 * JSON values and the text that carries them.
 *
 * JSON text is kept abstract: what `json.dumps` produces is represented by the
 * value it encodes (`Dumped`), and every other string (the empty string, a
 * Markdown description) is `Plain`.
 */
module Wire {
  import opened Wrappers

  datatype Json =
    | JNull
    | JBool(b: bool)
    | JNumber(n: int)
    | JString(s: string)
    | JArray(items: seq<Json>)
    | JObject(fields: map<string, Json>)

  /** A Python `str` as it travels over the bus or sits in a file. */
  datatype Text = Plain(chars: string) | Dumped(doc: Json)

  /** `json.loads`: dumped text gives back its value; plain text is not a JSON document. */
  function Loads(t: Text): (r: Result<Json>)
    ensures r.Success? <==> t.Dumped?
    ensures t.Dumped? ==> r == Success(t.doc)
    ensures r.Failure? ==> r.error == JsonDecodeError
  {
    match t
    case Dumped(j) => Success(j)
    case Plain(_) => Failure(JsonDecodeError)
  }

  /** Python truthiness of a decoded JSON value. */
  predicate Truthy(j: Json)
    ensures !Truthy(j) <==> j in {JNull, JBool(false), JNumber(0), JString(""), JArray([]), JObject(map[])}
  {
    match j
    case JNull => false
    case JBool(b) => b
    case JNumber(n) => n != 0
    case JString(s) => s != ""
    case JArray(items) => items != []
    case JObject(fields) => fields != map[]
  }

  /** Python truthiness of a string: only the empty string is false (dumped JSON is never empty). */
  predicate TextTruthy(t: Text)
    ensures t.Dumped? ==> TextTruthy(t)
    ensures !TextTruthy(t) <==> t == Plain("")
  {
    t != Plain("")
  }
}

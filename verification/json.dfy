/** An already-parsed JSON document, and serde_json's indexing operators.
    Indexing never fails: asking a non-array for a position, an array for a
    position past its end, a non-object for a key or an object for a key it
    lacks all give `Null`. */
module JsonValues {

  datatype Json =
    | Null
    | Bool(b: bool)
    | Number(n: int)
    | Str(str: string)
    | Array(items: seq<Json>)
    | Object(fields: map<string, Json>)

  /** `value[i]` for a position `i`. */
  function At(j: Json, i: nat): Json {
    if j.Array? && i < |j.items| then j.items[i] else Null
  }

  /** `value[key]` for a string key. */
  function Field(j: Json, key: string): Json {
    if j.Object? && key in j.fields then j.fields[key] else Null
  }
}

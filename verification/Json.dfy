/** JSON values. The object keys that the continuation code inspects have their own
    constructors, every other key is `Other`. */
module Json {
  import opened Common

  datatype Key =
    | Type | Id | Status | Phase | Role | Content | Annotations | Text
    | Summary | EncryptedContent | Passthrough | Other(name: string)

  datatype Json =
    | Null
    | Bool(b: bool)
    | Number(digits: string)
    | Str(s: string)
    | Arr(items: seq<Json>)
    | Obj(fields: map<Key, Json>)

  /** The value under `key`; only objects have any. */
  function Get(v: Json, key: Key): Option<Json> {
    if v.Obj? && key in v.fields then Some(v.fields[key]) else None
  }

  predicate HasText(v: Json, key: Key, text: string) {
    Get(v, key) == Some(Str(text))
  }
}

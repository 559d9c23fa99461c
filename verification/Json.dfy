/** JSON values. Object members are unordered, as in `serde_json`'s sorted maps. */
module JsonValue {
  import opened Outcomes

  datatype Json =
    | Null
    | Bool(b: bool)
    | Number(n: int)
    | Str(s: string)
    | Array(items: seq<Json>)
    | Object(fields: map<string, Json>)

  /** `Value::get` with a string key: only objects have named members. */
  function Get(v: Json, field: string): Option<Json> {
    if v.Object? && field in v.fields then Some(v.fields[field]) else None
  }
}

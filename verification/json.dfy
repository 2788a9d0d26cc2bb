/** JSON as a tree.  Numbers are the integers the modelled documents use. */
module Json {
  datatype Json =
    | Null
    | Bool(b: bool)
    | Num(n: int)
    | Str(s: string)
    | Arr(items: seq<Json>)
    | Obj(fields: map<string, Json>)

  /** Python's `value.get(key)` on a dict; everything else has no such field. */
  function Get(value: Json, key: string): Json {
    if value.Obj? && key in value.fields then value.fields[key] else Null
  }

  function Put(value: Json, key: string, item: Json): Json
    requires value.Obj?
  {
    Obj(value.fields[key := item])
  }

  predicate Has(value: Json, key: string) { value.Obj? && key in value.fields }

  predicate NonemptyString(value: Json) { value.Str? && value.s != [] }
}

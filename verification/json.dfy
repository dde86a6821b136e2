/** JSON values as the Python source holds them after parsing. */
module Json {
  datatype Json =
    | Null
    | Bool(b: bool)
    | Int(n: int)
    | Float(r: real)
    | Str(s: string)
    | Arr(items: seq<Json>)
    | Obj(fields: Fields)

  type Fields = map<string, Json>

  /** `d.get(key)`: an absent key and a null read alike. */
  function Get(d: Fields, key: string): (r: Json)
    ensures key !in d ==> r == Null
  {
    if key in d then d[key] else Null
  }

  /** `d.get(key)` on any value: null unless it is an object. */
  function Field(j: Json, key: string): Json {
    if j.Obj? then Get(j.fields, key) else Null
  }

  predicate HasField(j: Json, key: string) {
    j.Obj? && key in j.fields
  }

  /** Python truth of a value. */
  predicate Truthy(j: Json) {
    match j
    case Null => false
    case Bool(b) => b
    case Int(n) => n != 0
    case Float(r) => r != 0.0
    case Str(s) => s != ""
    case Arr(items) => items != []
    case Obj(fields) => fields != map[]
  }

  function TextBlock(text: string): Json {
    Obj(map["type" := Str("text"), "text" := Str(text)])
  }
}

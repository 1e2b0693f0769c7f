/** Parsed JSON as the Python scripts see it. */
module Json {
  import opened Wrappers

  datatype Json =
    | Null
    | Bool(truth: bool)
    | Int(number: int)
    | Float(value: real)
    | Str(text: string)
    | Arr(items: seq<Json>)
    | Obj(members: map<string, Json>)

  /** `dict.get`: a missing key and a null look the same. */
  function Get(members: map<string, Json>, key: string): Json {
    if key in members then members[key] else Null
  }

  /** `isinstance(value, int)`, which accepts booleans, and the integer it stands for. */
  function AsInt(json: Json): Option<int> {
    match json
    case Int(number) => Some(number)
    case Bool(truth) => Some(if truth then 1 else 0)
    case _ => None
  }

  /** `value == number` for a number that is neither 0 nor 1. */
  predicate IsNumber(json: Json, number: int) {
    json == Int(number) || json == Float(number as real)
  }

  predicate Hashable(json: Json) {
    !json.Arr? && !json.Obj?
  }
}

/** JSON values as Python sees them after decoding (RFC 8259), with Python's notion of truth. */
module Json {

  datatype Json =
    | Null
    | Bool(flag: bool)
    | Num(number: real)
    | Str(text: string)
    | Arr(items: seq<Json>)
    | Obj(fields: map<string, Json>)
  {
    predicate Truthy() {
      match this
      case Null => false
      case Bool(b) => b
      case Num(r) => r != 0.0
      case Str(s) => s != ""
      case Arr(xs) => xs != []
      case Obj(fs) => |fs| != 0
    }

    /** Lists and objects cannot be members of a Python set. */
    predicate Hashable() {
      !Arr? && !Obj?
    }
  }

  /** Python's `payload.get(key)`: a missing key reads as None. */
  function Get(payload: map<string, Json>, key: string): Json {
    if key in payload then payload[key] else Null
  }

  /** Python's falsy values are null, false, zero and everything empty. */
  lemma FalsyIff(value: Json)
    ensures !value.Truthy() <==>
              || value == Null || value == Bool(false) || value == Num(0.0) || value == Str("") || value == Arr([])
              || value == Obj(map[])
  {
  }
}

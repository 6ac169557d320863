/** JSON values as Python holds them after `json.loads`, and Python's truthiness on them. */
module PyJson {

  /** A decoded JSON document. Numbers are integers; fractional numbers are not modelled. */
  datatype Json =
    | Null
    | Bool(b: bool)
    | Num(n: int)
    | Str(s: string)
    | Arr(items: seq<Json>)
    | Obj(fields: map<string, Json>)

  /** Python's truth test: `None`, `False`, `0`, `""`, `[]` and `{}` are false, everything else true. */
  predicate Truthy(j: Json)
    ensures !Truthy(j) <==> j in {Null, Bool(false), Num(0), Str(""), Arr([]), Obj(map[])}
  {
    match j
    case Null => false
    case Bool(b) => b
    case Num(n) => n != 0
    case Str(s) => s != ""
    case Arr(xs) => xs != []
    case Obj(m) => m != map[]
  }

  /** `d.get(key)`: the stored value, or `None` when the key is missing. */
  function Get(d: map<string, Json>, key: string): (v: Json)
    ensures key in d ==> v == d[key]
    ensures key !in d ==> v == Null
  {
    if key in d then d[key] else Null
  }
}

/**
 * The JSON values the scraper reads from the forum API and the record
 * dictionaries the pipeline passes between stages, with the two Python
 * operations the source applies to them: `dict.get(key, default)` and truth
 * testing (`if value:`).
 */
module Json {

  /**
   * A value produced by `json.loads`. Numbers are kept as integers: the source
   * only ever tests them for truth, and floats are not modelled.
   */
  datatype Json =
    | Null
    | Bool(b: bool)
    | Num(n: int)
    | Str(s: string)
    | Arr(items: seq<Json>)
    | Obj(fields: map<string, Json>)

  /** `d.get(key, default)` on a dictionary. */
  function Get(d: map<string, Json>, key: string, default: Json): (v: Json)
    ensures key in d ==> v == d[key]
    ensures key !in d ==> v == default
  {
    if key in d then d[key] else default
  }

  /**
   * Python truth testing: `None`, `False`, zero and empty strings, lists and
   * dictionaries are false; every other value is true.
   */
  predicate Truthy(v: Json)
  {
    match v
    case Null => false
    case Bool(b) => b
    case Num(n) => n != 0
    case Str(s) => s != []
    case Arr(items) => items != []
    case Obj(fields) => fields != map[]
  }
}

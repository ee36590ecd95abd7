/** JSON values as json.loads hands them to the program. */
module Json {
  import opened Wrappers

  /** Num is a number with a finite float value (kept exact), Huge any other JSON number:
      NaN, an infinity, or an integer too large for a float. */
  datatype Json =
    | Null
    | Bool(b: bool)
    | Num(num: real)
    | Huge
    | Str(str: string)
    | Arr(items: seq<Json>)
    | Obj(fields: map<string, Json>)

  type Fields = map<string, Json>

  /** dict.get(key): a missing key and an explicit null look the same. */
  function Get(fields: Fields, key: string): Json {
    if key in fields then fields[key] else Null
  }

  /** observability/claude_usage_metrics.py number(value): a finite, by default non-negative, number. */
  function Number(v: Json): (r: Option<real>)
    ensures r.Some? ==> r.value >= 0.0 && v == Num(r.value)
  {
    match v
    case Num(x) => if x >= 0.0 then Some(x) else None
    case _ => None
  }

  /** number(value, signed=True). */
  function SignedNumber(v: Json): Option<real> {
    match v
    case Num(x) => Some(x)
    case _ => None
  }

  /** The named fields that the source has, each replaced by f of it. */
  function Keep(source: Fields, keys: seq<string>, f: (string, Json) -> Json): (kept: Fields)
    ensures forall k :: k in kept <==> k in source && k in keys
    ensures forall k | k in kept :: kept[k] == f(k, source[k])
  {
    if keys == [] then map[]
    else
      var rest := Keep(source, keys[1..], f);
      if keys[0] in source then rest[keys[0] := f(keys[0], source[keys[0]])] else rest
  }
}

/** Loosely typed JSON documents as the transport hands them to the client,
    together with the few Python behaviours the client relies on: truthiness,
    hashability (dictionary keys), `dict.get` with a default and `str()`. */
module Json {

  datatype Json =
    | JNull
    | JBool(b: bool)
    | JInt(i: int)
    | JStr(s: string)
    | JArr(items: seq<Json>)
    | JObj(fields: map<string, Json>)

  /** A JSON object, the Python `Dict[str, Any]` of the source. */
  type Record = map<string, Json>

  /** Python truthiness of a JSON value. */
  predicate Truthy(j: Json)
  {
    match j
    case JNull => false
    case JBool(b) => b
    case JInt(i) => i != 0
    case JStr(s) => s != ""
    case JArr(xs) => xs != []
    case JObj(m) => m != map[]
  }

  /** The falsy JSON values are exactly `None`, `False`, `0`, `""`, `[]` and `{}`. */
  lemma FalsyValues(j: Json)
    ensures !Truthy(j) <==> j in {JNull, JBool(false), JInt(0), JStr(""), JArr([]), JObj(map[])}
  {
  }

  /** Lists and dicts cannot be dictionary keys in Python. */
  predicate Hashable(j: Json)
  {
    !j.JArr? && !j.JObj?
  }

  /** `m.get(k, default)` */
  function Get(m: Record, k: string, default: Json): (r: Json)
    ensures k in m ==> r == m[k]
    ensures k !in m ==> r == default
  {
    if k in m then m[k] else default
  }

  /** The empty JSON object `{}` and the empty list `[]`. */
  const EmptyObject: Json := JObj(map[])
  const EmptyList: Json := JArr([])

  /** Decimal digits of a natural number, most significant first. */
  function NatToString(n: nat): (r: string)
    ensures |r| >= 1
    ensures forall k :: 0 <= k < |r| ==> '0' <= r[k] <= '9'
    decreases n
  {
    if n < 10 then [('0' as int + n) as char]
    else NatToString(n / 10) + [('0' as int + n % 10) as char]
  }

  /** Python's `str()` of a scalar JSON value, as used by f-strings. */
  function Show(j: Json): (r: string)
    ensures j.JStr? ==> r == j.s
  {
    match j
    case JNull => "None"
    case JBool(b) => if b then "True" else "False"
    case JInt(i) => if i < 0 then "-" + NatToString(-i) else NatToString(i)
    case JStr(s) => s
    case JArr(_) => ""
    case JObj(_) => ""
  }
}

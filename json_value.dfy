/**
  * JSON values as Python handles them after `json.loads`.
  * Objects are maps: the core only looks keys up, and the one place where a
  * dict's insertion order could leak out (the cache key) serialises with
  * sorted keys. Numbers are integers; floats are not modelled.
  */
module JsonValue {
  import opened Text

  datatype Json =
    | JNull
    | JBool(b: bool)
    | JNum(n: int)
    | JStr(s: string)
    | JArr(items: seq<Json>)
    | JObj(fields: map<string, Json>)

  datatype Option<T> = None | Some(value: T)

  /** Python truthiness of a decoded JSON value. */
  predicate Truthy(j: Json)
  {
    match j
    case JNull => false
    case JBool(b) => b
    case JNum(n) => n != 0
    case JStr(s) => s != []
    case JArr(a) => a != []
    case JObj(m) => m != map[]
  }

  /** `d.get(k, default)` */
  function Get(m: map<string, Json>, k: string, default: Json): Json
  {
    if k in m then m[k] else default
  }

  /** The Python type name of a decoded value, as exception messages print it. */
  function TypeName(j: Json): string
  {
    match j
    case JNull => "NoneType"
    case JBool(_) => "bool"
    case JNum(_) => "int"
    case JStr(_) => "str"
    case JArr(_) => "list"
    case JObj(_) => "dict"
  }

  /** A list of Python strings as a JSON array. */
  function Strs(xs: seq<string>): (r: Json)
    ensures r.JArr? && |r.items| == |xs|
    ensures forall i | 0 <= i < |xs| :: r.items[i] == JStr(xs[i])
  {
    JArr(seq(|xs|, i requires 0 <= i < |xs| => JStr(xs[i])))
  }

  /** A JSON array all of whose items are strings, read back as strings. */
  function AsStrings(j: Json): (r: Option<seq<string>>)
    ensures r.Some? ==> Strs(r.value) == j
  {
    if j.JArr? && forall i | 0 <= i < |j.items| :: j.items[i].JStr? then
      var xs := seq(|j.items|, i requires 0 <= i < |j.items| => j.items[i].s);
      assert Strs(xs).items == j.items;
      Some(xs)
    else None
  }
}

/**
  * The few Python operations the extractors apply to decoded JSON values, with the
  * exception each raises on a value of the wrong type. `Raised(message)` carries `str(e)`
  * of that exception, which is what the extractors' `except` clauses pass on.
  */
module PyObject {
  import opened Text
  import opened JsonValue

  datatype Result<T> = Ok(value: T) | Raised(message: string)
  {
    predicate IsFailure()
    {
      Raised?
    }

    function PropagateFailure<U>(): Result<U>
      requires Raised?
    {
      Raised(message)
    }

    function Extract(): T
      requires Ok?
    {
      value
    }
  }

  /** What the generative model's client returns for a prompt: a decoded value, or an
      exception. */
  datatype Reply = Replied(value: Json) | Failed(message: string)

  function NoAttribute(j: Json, attribute: string): string
  {
    "'" + TypeName(j) + "' object has no attribute '" + attribute + "'"
  }

  /** `x.get(k, default)` on a dict; an `AttributeError` on anything else. */
  function GetField(j: Json, k: string, default: Json): (r: Result<Json>)
    ensures r.Ok? <==> j.JObj?
    ensures j.JObj? && k in j.fields ==> r == Ok(j.fields[k])
    ensures j.JObj? && k !in j.fields ==> r == Ok(default)
  {
    if j.JObj? then Ok(Get(j.fields, k, default)) else Raised(NoAttribute(j, "get"))
  }

  /** The `TypeError` of `x[k] = v` with a string key on something other than a dict. */
  function ItemAssignmentError(j: Json): string
  {
    if j.JArr? then "list indices must be integers or slices, not str"
    else "'" + TypeName(j) + "' object does not support item assignment"
  }

  /** `x[k] = v` with a string key. */
  function SetField(j: Json, k: string, v: Json): (r: Result<Json>)
    ensures r.Ok? <==> j.JObj?
    ensures r.Ok? ==> r.value.JObj? && r.value.fields == j.fields[k := v]
    ensures r.Raised? ==> r.message == ItemAssignmentError(j)
  {
    if j.JObj? then Ok(JObj(j.fields[k := v])) else Raised(ItemAssignmentError(j))
  }

  /** The one-character strings a `for` loop over a string yields. */
  function Chars(s: string): (r: seq<Json>)
    ensures |r| == |s| && forall i | 0 <= i < |s| :: r[i] == JStr([s[i]])
  {
    seq(|s|, i requires 0 <= i < |s| => JStr([s[i]]))
  }

  /** What `for x in j` iterates over: a list's items or a string's characters; numbers,
      booleans and `None` raise `TypeError`. Iterating a dict (its keys in insertion
      order) is outside the model: objects here have no key order, so it raises too. */
  function Iterate(j: Json): (r: Result<seq<Json>>)
    ensures j.JArr? ==> r == Ok(j.items)
    ensures j.JStr? ==> r == Ok(Chars(j.s))
  {
    match j
    case JArr(items) => Ok(items)
    case JStr(s) => Ok(Chars(s))
    case _ => Raised("'" + TypeName(j) + "' object is not iterable")
  }

  /** `len(j)`: a string's characters, a list's items or a dict's keys; numbers, booleans
      and `None` raise `TypeError`. */
  function Len(j: Json): (r: Result<nat>)
    ensures r.Ok? <==> j.JStr? || j.JArr? || j.JObj?
    ensures j.JArr? ==> r == Ok(|j.items|)
  {
    match j
    case JStr(s) => Ok(|s|)
    case JArr(items) => Ok(|items|)
    case JObj(m) => Ok(|m.Keys|)
    case _ => Raised("object of type '" + TypeName(j) + "' has no len()")
  }

  /** `lst.append(x)`: only a list has `append`. */
  function Append(j: Json, x: Json): (r: Result<Json>)
    ensures r.Ok? <==> j.JArr?
    ensures r.Ok? ==> r.value == JArr(j.items + [x])
  {
    if j.JArr? then Ok(JArr(j.items + [x])) else Raised(NoAttribute(j, "append"))
  }

  /** `x.lower()`: only a string has `lower`. */
  function LowerOf(j: Json): (r: Result<string>)
    ensures r.Ok? <==> j.JStr?
    ensures r.Ok? ==> r.value == Lower(j.s)
  {
    if j.JStr? then Ok(Lower(j.s)) else Raised(NoAttribute(j, "lower"))
  }

  /** `int(b)`: a Python `bool` is the integer 0 or 1. */
  function BoolInt(b: bool): int
  {
    if b then 1 else 0
  }

  /** Python's `==` on decoded values: `True == 1` and `False == 0`, lists item by item,
      dicts on the same keys with equal values. */
  predicate PyEq(a: Json, b: Json)
    decreases a
  {
    match a
    case JNull => b.JNull?
    case JBool(x) => (b.JBool? && b.b == x) || (b.JNum? && b.n == BoolInt(x))
    case JNum(n) => (b.JNum? && b.n == n) || (b.JBool? && n == BoolInt(b.b))
    case JStr(s) => b.JStr? && b.s == s
    case JArr(xs) => b.JArr? && |xs| == |b.items| && forall i | 0 <= i < |xs| :: PyEq(xs[i], b.items[i])
    case JObj(m) => b.JObj? && m.Keys == b.fields.Keys && forall k | k in m :: PyEq(m[k], b.fields[k])
  }

  /** Every value equals itself. */
  lemma {:induction false} PyEqReflexive(a: Json)
    ensures PyEq(a, a)
    decreases a
  {
    match a
    case JArr(xs) =>
      forall i | 0 <= i < |xs| ensures PyEq(xs[i], xs[i]) {
        PyEqReflexive(xs[i]);
      }
    case JObj(m) =>
      forall k | k in m ensures PyEq(m[k], m[k]) {
        PyEqReflexive(m[k]);
      }
    case _ =>
  }

  /** `x in items` for a list: some item is `==` to `x`. */
  predicate PyIn(x: Json, items: seq<Json>)
  {
    exists i | 0 <= i < |items| :: PyEq(items[i], x)
  }

  /** A value is `in` any list that holds it. */
  lemma HeldIsIn(x: Json, items: seq<Json>)
    requires x in items
    ensures PyIn(x, items)
  {
    var i :| 0 <= i < |items| && items[i] == x;
    PyEqReflexive(x);
    assert PyEq(items[i], x);
  }

  /** Booleans are found among integers and the other way round, nested or not. */
  lemma BoolsAreInts()
    ensures In(JNum(1), JArr([JBool(true)])) == Ok(true)
    ensures In(JBool(false), JArr([JNum(0)])) == Ok(true)
    ensures In(JArr([JNum(1)]), JArr([JArr([JBool(true)])])) == Ok(true)
    ensures In(JNum(2), JArr([JBool(true)])) == Ok(false)
  {
    assert PyEq([JBool(true)][0], JNum(1));
    assert PyEq([JNum(0)][0], JBool(false));
    assert PyEq(JArr([JBool(true)]), JArr([JNum(1)])) by {
      assert PyEq(JArr([JBool(true)]).items[0], JArr([JNum(1)]).items[0]);
    }
    assert PyEq(JArr([JArr([JBool(true)])]).items[0], JArr([JNum(1)]));
  }

  /** `x in y`: membership in a list, substring of a string, key of a dict; numbers,
      booleans and `None` raise `TypeError`, as does a list or dict looked up as a key. */
  function In(x: Json, y: Json): (r: Result<bool>)
    ensures y.JArr? ==> r == Ok(PyIn(x, y.items))
    ensures y.JStr? && x.JStr? ==> r == Ok(Contains(y.s, x.s))
    ensures r.Ok? <==> y.JArr? || (y.JStr? && x.JStr?) || (y.JObj? && !x.JArr? && !x.JObj?)
  {
    match y
    case JArr(items) => Ok(PyIn(x, items))
    case JStr(s) =>
      if x.JStr? then Ok(Contains(s, x.s))
      else Raised("'in <string>' requires string as left operand, not " + TypeName(x))
    case JObj(m) =>
      if x.JStr? then Ok(x.s in m)
      else if x.JArr? || x.JObj? then Raised("unhashable type: '" + TypeName(x) + "'")
      else Ok(false)
    case _ => Raised("argument of type '" + TypeName(y) + "' is not iterable")
  }

  /** `{**a, **b}`: both must be mappings; `b`'s values win. */
  function MergeMappings(a: Json, b: Json): (r: Result<Json>)
    ensures r.Ok? <==> a.JObj? && b.JObj?
    ensures r.Ok? ==> r.value == JObj(a.fields + b.fields)
  {
    if !a.JObj? then Raised("'" + TypeName(a) + "' object is not a mapping")
    else if !b.JObj? then Raised("'" + TypeName(b) + "' object is not a mapping")
    else Ok(JObj(a.fields + b.fields))
  }
}

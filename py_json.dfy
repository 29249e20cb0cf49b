/**
 * A decoded JSON document as the Python code sees it (the output of `response.json()`),
 * with the few pieces of Python semantics the extractors rely on: truthiness, `dict.get`
 * and iterating a value whose elements are then asked for `.get`.
 * Numbers are integers: floating point is not part of the model.
 */
module PyJson {
  import opened Wrappers

  datatype Json =
    | JNull
    | JBool(b: bool)
    | JNum(n: int)
    | JStr(s: string)
    | JArr(items: seq<Json>)
    | JObj(fields: map<string, Json>)

  /** `bool(j)` in Python: null, false, 0 and empty strings, lists and dicts are falsy. */
  predicate Truthy(j: Json)
  {
    match j
    case JNull => false
    case JBool(b) => b
    case JNum(n) => n != 0
    case JStr(s) => s != ""
    case JArr(xs) => xs != []
    case JObj(m) => m != map[]
  }

  /** `d.get(key, default)` on a dict; `None` stands for the AttributeError raised when `d` is not a dict. */
  function Get(d: Json, key: string, default: Json): Option<Json>
  {
    if d.JObj? then Some(if key in d.fields then d.fields[key] else default) else None
  }

  /**
   * The elements seen by `for x in j: x.get(...)`. A list yields its items; an empty dict or
   * an empty string yields nothing; a non-empty dict or string yields strings, on which the
   * first `.get` raises AttributeError; null, booleans and numbers are not iterable (TypeError).
   * `None` stands for all of those raising cases.
   */
  function DictLoop(j: Json): (r: Option<seq<Json>>)
    ensures j.JArr? ==> r == Some(j.items)
    ensures r.Some? && r.value != [] ==> j.JArr?
  {
    match j
    case JArr(xs) => Some(xs)
    case JObj(m) => if m == map[] then Some([]) else None
    case JStr(s) => if s == "" then Some([]) else None
    case _ => None
  }

  /** `x is None` on a decoded value becomes `Option`: JSON null decodes to Python's None. */
  function NoneIfNull(j: Json): (r: Option<Json>)
    ensures r.Some? ==> r.value == j && j != JNull
    ensures r.None? <==> j == JNull
  {
    if j == JNull then None else Some(j)
  }
}

/** Python values as they arrive from JSON files, JSON bodies and index
    metadata, with the handful of Python built-ins the model applies to them. */
module PyJson {
  import opened Wrappers
  import opened Text

  /** A JSON value as Python's `json` module produces it. */
  datatype Json =
    | JNull
    | JBool(b: bool)
    | JInt(i: int)
    | JFloat(r: real)
    | JStr(s: string)
    | JArr(items: seq<Json>)
    | JObj(fields: map<string, Json>)

  /** Python truthiness: `None`, `False`, zero, and empty text, lists and dicts are false. */
  predicate Truthy(j: Json) {
    match j
    case JNull => false
    case JBool(b) => b
    case JInt(i) => i != 0
    case JFloat(r) => r != 0.0
    case JStr(s) => s != ""
    case JArr(items) => |items| > 0
    case JObj(fields) => |fields| > 0
  }

  /** Python's `str(v)`, exact for None, booleans, integers and strings.
      Floats, lists and dicts render as a fixed placeholder. */
  function Str(j: Json): (r: string) {
    match j
    case JNull => "None"
    case JBool(b) => if b then "True" else "False"
    case JInt(i) => IntToDecimal(i)
    case JFloat(_) => "<float>"
    case JStr(s) => s
    case JArr(_) => "<list>"
    case JObj(_) => "<dict>"
  }

  /** Python's `d.get(k, default)` on a dict. */
  function Get(d: map<string, Json>, k: string, default: Json): (r: Json)
    ensures k in d ==> r == d[k]
    ensures k !in d ==> r == default
  {
    if k in d then d[k] else default
  }

  /** The dict behind a value on which the code calls `.get`: any other value
      has no such method and raises AttributeError. */
  function AsDict(j: Json): (r: Result<map<string, Json>>)
    ensures r.Success? <==> j.JObj?
    ensures r.Success? ==> r.value == j.fields
  {
    if j.JObj? then Success(j.fields) else Failure(AttributeError)
  }

  /** Python's `key in container` for a string key: dict keys, list
      membership, substring for text; other values raise TypeError. */
  function In(key: string, container: Json): (r: Result<bool>)
    ensures container.JObj? ==> r == Success(key in container.fields)
    ensures container.JArr? ==> r == Success(JStr(key) in container.items)
    ensures container.JStr? ==> r == Success(Contains(container.s, key))
    ensures r.Failure? <==> !(container.JObj? || container.JArr? || container.JStr?)
  {
    match container
    case JObj(fields) => Success(key in fields)
    case JArr(items) => Success(JStr(key) in items)
    case JStr(s) => Success(Contains(s, key))
    case _ => Failure(TypeError)
  }

  /** Python's `int(r)` on a float: truncation toward zero. */
  function TruncReal(r: real): (n: int)
    ensures r >= 0.0 ==> n as real <= r < n as real + 1.0
    ensures r < 0.0 ==> n as real - 1.0 < r <= n as real
  {
    if r >= 0.0 then r.Floor else -((-r).Floor)
  }

  /** Python's `int(v)` for a JSON value. */
  function IntOf(j: Json): (r: Result<int>)
    ensures j.JInt? ==> r == Success(j.i)
    ensures j.JNull? || j.JArr? || j.JObj? ==> r == Failure(TypeError)
  {
    match j
    case JInt(i) => Success(i)
    case JBool(b) => Success(if b then 1 else 0)
    case JFloat(r) => Success(TruncReal(r))
    case JStr(s) => (match ParseInt(s) case Some(n) => Success(n) case None => Failure(ValueError))
    case _ => Failure(TypeError)
  }
}

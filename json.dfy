/** The Python values that `json.loads` produces, and the few Python
    operations on them the backend uses: truthiness (`if not x`, `a or b`),
    `dict.get`, `str(x)` and `type(x).__name__`. */
module PyJson {
  import opened Text

  /** A JSON value as Python holds it after `json.loads`. Integers and
      floats are distinct Python types; a float is held as the exact decimal
      value of its shortest `repr`. */
  datatype Json =
    | JNull
    | JBool(b: bool)
    | JInt(i: int)
    | JFloat(f: real)
    | JStr(s: string)
    | JArr(items: seq<Json>)
    | JObj(fields: map<string, Json>)

  /** Python truthiness of a JSON value: `None`, `False`, zero and empty
      strings, lists and dicts are false. */
  predicate Truthy(j: Json) {
    match j
    case JNull => false
    case JBool(b) => b
    case JInt(i) => i != 0
    case JFloat(f) => f != 0.0
    case JStr(s) => s != ""
    case JArr(items) => items != []
    case JObj(fields) => fields != map[]
  }

  /** `d.get(key)`: the value stored under `key`, or `None` when there is none. */
  function Get(d: map<string, Json>, key: string): Json {
    if key in d then d[key] else JNull
  }

  /** Python's `a or b`: `a` when it is truthy, `b` otherwise. */
  function Or(a: Json, b: Json): Json {
    if Truthy(a) then a else b
  }

  /** `type(j).__name__`. */
  function TypeName(j: Json): string {
    match j
    case JNull => "NoneType"
    case JBool(_) => "bool"
    case JInt(_) => "int"
    case JFloat(_) => "float"
    case JStr(_) => "str"
    case JArr(_) => "list"
    case JObj(_) => "dict"
  }

  /** `str(j)`. Exact for `None`, booleans, integers and strings; a float,
      list or dict is shown as its type name in angle brackets, a text that
      (like Python's) is never three letters and never a decimal numeral. */
  function PyStr(j: Json): string {
    match j
    case JNull => "None"
    case JBool(b) => if b then "True" else "False"
    case JInt(i) => IntText(i)
    case JStr(s) => s
    case _ => "<" + TypeName(j) + ">"
  }

  /** The message of the `AttributeError` Python raises when `.get` is
      called on a JSON value that is not a dict. */
  function NoGetMessage(j: Json): string {
    "'" + TypeName(j) + "' object has no attribute 'get'"
  }
}

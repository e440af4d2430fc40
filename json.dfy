/** Decoded JSON as Python sees it after `response.json()`: `None`, `bool`, `int`, `str`,
    `list` and `dict` values, with the dictionary operations and built-in error messages
    the search code relies on. */
module Json {

  datatype Json =
    | Null
    | Bool(b: bool)
    | Num(n: int)
    | Str(s: string)
    | Arr(items: seq<Json>)
    | Obj(fields: map<string, Json>)

  /** The name Python reports for the type of a decoded value. */
  function PyTypeName(v: Json): string
  {
    match v
    case Null => "NoneType"
    case Bool(_) => "bool"
    case Num(_) => "int"
    case Str(_) => "str"
    case Arr(_) => "list"
    case Obj(_) => "dict"
  }

  /** `d.get(key, default)`. */
  function Get(fields: map<string, Json>, key: string, default: Json): (r: Json)
    ensures key in fields ==> r == fields[key]
    ensures key !in fields ==> r == default
  {
    if key in fields then fields[key] else default
  }

  /** `str(e)` of the AttributeError raised by `x.get(...)` on a value `x` that is not a dict. */
  function NoGetMessage(typeName: string): string
  {
    "'" + typeName + "' object has no attribute 'get'"
  }

  /** `str(e)` of the TypeError raised by `for x in v` on a value that is not iterable. */
  function NotIterableMessage(typeName: string): string
  {
    "'" + typeName + "' object is not iterable"
  }
}

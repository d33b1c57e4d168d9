/** The JSON values the indexer reads and writes, and the Python exceptions
    that abort a run of it. */
module Json {
  import opened Wrappers
  import opened Dicts

  /** A decoded JSON value. Objects keep their keys in insertion order, as a
      Python dict does. Floating-point numbers are not modelled. */
  datatype JValue =
    | JNull
    | JBool(b: bool)
    | JInt(i: int)
    | JStr(s: string)
    | JList(items: seq<JValue>)
    | JObj(fields: Dict<string, JValue>)

  /** A JSON object, i.e. a Python dict with string keys. */
  type Object = Dict<string, JValue>

  /** An exception raised by the program. None of them is caught, so each one
      ends the whole run. */
  datatype PyError =
    | KeyError(key: string)
    | TypeError(reason: string)
    | ValueError(reason: string)
    | AttributeError(name: string)
    | ZeroDivisionError
    | NameError(name: string)

  /** Python's `isinstance(v, int)`: `bool` is a subclass of `int`. */
  predicate IsInt(v: JValue) {
    v.JInt? || v.JBool?
  }

  /** The integer a Python int or bool stands for. */
  function IntValue(v: JValue): int
    requires IsInt(v)
  {
    if v.JInt? then v.i else if v.b then 1 else 0
  }

  /** Python's `a > b` between numbers: a comparison of ints and bools, and a
      TypeError when either side is something else. (Python also orders two
      strings or two lists; the indexer never compares those, since the
      fetched side is always an int.) */
  function Greater(a: JValue, b: JValue): (r: Result<bool, PyError>)
    ensures r.Ok? <==> IsInt(a) && IsInt(b)
    ensures r.Ok? ==> (r.value <==> IntValue(a) > IntValue(b))
  {
    if IsInt(a) && IsInt(b) then Ok(IntValue(a) > IntValue(b))
    else Err(TypeError("'>' not supported between these types"))
  }

  /** Python's `v[key]` with a string key: a KeyError when `v` is an object
      without `key`, a TypeError when `v` is not an object at all. */
  function Subscript(v: JValue, key: string): (r: Result<JValue, PyError>)
    ensures r.Ok? <==> v.JObj? && HasKey(v.fields, key)
    ensures r.Ok? ==> Get(v.fields, key) == Some(r.value)
    ensures v.JObj? && !HasKey(v.fields, key) ==> r == Err(KeyError(key))
    ensures !v.JObj? ==> r.Err? && r.error.TypeError?
  {
    if !v.JObj? then Err(TypeError("the value is not subscriptable by a string"))
    else match Get(v.fields, key)
      case None => Err(KeyError(key))
      case Some(x) => Ok(x)
  }

  /** Whether Python can use the value as a dict key: lists and dicts are
      unhashable. */
  predicate Hashable(v: JValue) {
    !v.JList? && !v.JObj?
  }
}

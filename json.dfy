/**
 * Decoded JSON as the Python side sees it: the dicts that `to_dict`/`from_dict`
 * exchange and the request bodies Flask hands to the handlers. Arrays and
 * floating point numbers never occur in the modelled code and are omitted.
 */
module Json {
  import opened Wrappers

  datatype Value =
    | Null
    | Bool(b: bool)
    | Int(i: int)
    | Str(s: string)
    | Object(fields: map<string, Value>)

  /** Why a dict could not be read back into a model value. */
  datatype DecodeError =
    | NotAnObject
    | MissingKey(key: string)     // `data[key]` raised KeyError
    | UnknownType(found: Value)   // `ContentType(x)` raised ValueError
    | WrongType(key: string)      // the value under `key` is not of the field's declared type

  /** Python truthiness (`if x:`) of a decoded JSON value. */
  predicate Truthy(v: Value)
    ensures !Truthy(v) <==> v in {Null, Bool(false), Int(0), Str(""), Object(map[])}
  {
    match v
    case Null => false
    case Bool(b) => b
    case Int(i) => i != 0
    case Str(s) => s != ""
    case Object(m) => |m| != 0
  }

  /** `data.get(key)` for a field declared `Optional[str]`: absent and null both read as None. */
  function OptionalString(m: map<string, Value>, key: string): (r: Result<Option<string>, DecodeError>)
    ensures r.Ok? && r.value.Some? ==> key in m && m[key] == Str(r.value.value)
    ensures r.Ok? && r.value.None? <==> key !in m || m[key] == Null
    ensures r.Err? <==> key in m && !m[key].Null? && !m[key].Str?
  {
    if key !in m then Ok(None)
    else match m[key]
      case Null => Ok(None)
      case Str(s) => Ok(Some(s))
      case _ => Err(WrongType(key))
  }

  /** `data.get(key)` for a field declared `Optional[int]`. */
  function OptionalInt(m: map<string, Value>, key: string): (r: Result<Option<int>, DecodeError>)
    ensures r.Ok? && r.value.Some? ==> key in m && m[key] == Int(r.value.value)
    ensures r.Ok? && r.value.None? <==> key !in m || m[key] == Null
    ensures r.Err? <==> key in m && !m[key].Null? && !m[key].Int?
  {
    if key !in m then Ok(None)
    else match m[key]
      case Null => Ok(None)
      case Int(i) => Ok(Some(i))
      case _ => Err(WrongType(key))
  }

  /** `data.get(key, default)` for an `int` field: only an absent key takes the default. */
  function IntOr(m: map<string, Value>, key: string, default: int): (r: Result<int, DecodeError>)
    ensures key !in m ==> r == Ok(default)
    ensures key in m ==> (r.Ok? <==> m[key].Int?)
    ensures key in m && r.Ok? ==> m[key] == Int(r.value)
  {
    if key !in m then Ok(default)
    else if m[key].Int? then Ok(m[key].i)
    else Err(WrongType(key))
  }
}

/** Python values as the backend handles them: what json.loads produces and
    json.dumps consumes, the exceptions the core can raise, and the few
    built-in operations on values (subscript, item assignment, `<`) whose
    failures decide the handler's outcome. */
module Values {

  datatype Option<+T> = None | Some(value: T)

  /** A JSON-shaped Python value. Numbers are Python floats; a dict is a map
      from its keys to its values. */
  datatype Json =
    | JNull
    | JBool(b: bool)
    | JNum(n: real)
    | JStr(s: string)
    | JArr(items: seq<Json>)
    | JObj(fields: map<string, Json>)

  datatype ExceptionKind = TypeError | KeyError | AttributeError | UnboundLocalError | External(name: string)

  /** A raised exception; `message` is what `str(e)` gives. */
  datatype Exception = Exception(kind: ExceptionKind, message: string)

  /** The outcome of a call that may raise. */
  datatype Fallible<+T> = Ok(value: T) | Raised(error: Exception)

  /** Python's truth value of a JSON-shaped value. */
  predicate Truthy(v: Json) {
    match v
    case JNull => false
    case JBool(b) => b
    case JNum(n) => n != 0.0
    case JStr(s) => s != ""
    case JArr(items) => items != []
    case JObj(fields) => fields != map[]
  }

  /** The name `type(v).__name__` gives. */
  function TypeName(v: Json): string {
    match v
    case JNull => "NoneType"
    case JBool(_) => "bool"
    case JNum(_) => "float"
    case JStr(_) => "str"
    case JArr(_) => "list"
    case JObj(_) => "dict"
  }

  /** `v[key]` with a string key. */
  function Subscript(v: Json, key: string): (r: Fallible<Json>)
    ensures r.Ok? <==> v.JObj? && key in v.fields
    ensures r.Ok? ==> r.value == v.fields[key]
    ensures r.Raised? && !v.JObj? ==> r.error.kind == TypeError
  {
    match v
    case JObj(fields) =>
      if key in fields then Ok(fields[key]) else Raised(Exception(KeyError, "'" + key + "'"))
    case JStr(_) => Raised(Exception(TypeError, "string indices must be integers, not 'str'"))
    case JArr(_) => Raised(Exception(TypeError, "list indices must be integers or slices, not str"))
    case _ => Raised(Exception(TypeError, "'" + TypeName(v) + "' object is not subscriptable"))
  }

  /** `v[key] = x` with a string key; the updated value on success. */
  function SetItem(v: Json, key: string, x: Json): (r: Fallible<Json>)
    ensures r.Ok? <==> v.JObj?
    ensures r.Ok? ==> r.value.JObj? && r.value.fields.Keys == v.fields.Keys + {key}
    ensures r.Ok? ==> r.value.fields[key] == x
    ensures r.Ok? ==> forall k :: k in v.fields && k != key ==> r.value.fields[k] == v.fields[k]
  {
    match v
    case JObj(fields) => Ok(JObj(fields[key := x]))
    case JArr(_) => Raised(Exception(TypeError, "list indices must be integers or slices, not str"))
    case _ => Raised(Exception(TypeError, "'" + TypeName(v) + "' object does not support item assignment"))
  }

  /** `v < bound` where `bound` is a float; a bool compares as 0 or 1. */
  function LessThan(v: Json, bound: real): (r: Fallible<bool>)
    ensures r.Ok? <==> v.JNum? || v.JBool?
    ensures v.JNum? ==> r == Ok(v.n < bound)
  {
    match v
    case JNum(n) => Ok(n < bound)
    case JBool(b) => Ok((if b then 1.0 else 0.0) < bound)
    case _ =>
      Raised(Exception(TypeError, "'<' not supported between instances of '" + TypeName(v) + "' and 'float'"))
  }
}

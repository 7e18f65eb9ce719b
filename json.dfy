/** JSON values as Python's `json` module decodes them, and the few Python operations the
    entities apply to them: truthiness, `dict.get`, `==` against an int, `int()`. */
module Json {
  import opened Base
  import Text

  datatype Value =
    | Null
    | Bool(b: bool)
    | Int(i: int)
    | Float(r: real)
    | Str(s: string)
    | List(items: seq<Value>)
    | Obj(fields: map<string, Value>)

  /** A decoded JSON object: one frame from the printer, or the coordinator's data. */
  type Frame = map<string, Value>

  /** Python `bool(v)`. */
  predicate Truthy(v: Value) {
    match v
    case Null => false
    case Bool(b) => b
    case Int(i) => i != 0
    case Float(r) => r != 0.0
    case Str(s) => s != ""
    case List(items) => items != []
    case Obj(fields) => fields != map[]
  }

  /** Python `bool(coordinator.data)` where the data is `None` or a dict. */
  predicate HasData(data: Option<Frame>) {
    data.Some? && data.value != map[]
  }

  /** Python `frame.get(key, default)`. */
  function Get(frame: Frame, key: string, default: Value): Value {
    if key in frame then frame[key] else default
  }

  /** Python `v == n` for an int literal `n`: `True == 1` and `1.0 == 1` hold in Python. */
  predicate EqualsInt(v: Value, n: int) {
    match v
    case Int(i) => i == n
    case Bool(b) => (if b then 1 else 0) == n
    case Float(r) => r == n as real
    case _ => false
  }

  /** Python `str(v)` where the model renders it: `None`, booleans, ints and strings.
      Floats, lists and dicts give `None` here. */
  function PyStr(v: Value): (r: Option<string>)
    ensures v.Str? ==> r == Some(v.s)
    ensures v.Int? ==> r == Some(Text.IntToDecimal(v.i))
    ensures r.Some? <==> !(v.Float? || v.List? || v.Obj?)
  {
    match v
    case Null => Some("None")
    case Bool(b) => Some(if b then "True" else "False")
    case Int(i) => Some(Text.IntToDecimal(i))
    case Str(s) => Some(s)
    case _ => None
  }

  /** Python `int(x)` for a float `x`: truncation toward zero. */
  function Truncate(r: real): (n: int)
    ensures r >= 0.0 ==> 0 <= n && n as real <= r < n as real + 1.0
    ensures r < 0.0 ==> n <= 0 && n as real - 1.0 < r <= n as real
  {
    if r >= 0.0 then r.Floor else -((-r).Floor)
  }

  /** Python `int(v)` for a decoded JSON value. */
  function IntOf(v: Value): (r: Result<int, PyError>)
    ensures v.Int? ==> r == Ok(v.i)
    ensures v.Null? || v.List? || v.Obj? ==> r == Err(TypeError)
    ensures v.Str? ==> (r.Ok? <==> Text.ParseInt(v.s, Text.IsPySpace).Some?)
  {
    match v
    case Null => Err(TypeError)
    case Bool(b) => Ok(if b then 1 else 0)
    case Int(i) => Ok(i)
    case Float(x) => Ok(Truncate(x))
    case Str(s) =>
      (match Text.ParseInt(s, Text.IsPySpace)
       case Some(n) => Ok(n)
       case None => Err(ValueError))
    case List(_) => Err(TypeError)
    case Obj(_) => Err(TypeError)
  }
}

/** The plain nested data the persistence mapping produces: Python's `None`,
    `bool`, `int`, `float`, `str`, list or tuple, and `dict` with string keys. */
module Values {
  import opened Base

  datatype Value =
    | VNone
    | VBool(b: bool)
    | VInt(i: int)
    | VReal(r: real)
    | VStr(s: string)
    | VList(items: seq<Value>)
    | VDict(fields: map<string, Value>)

  /** Python truthiness. */
  predicate Truthy(v: Value) {
    match v
    case VNone => false
    case VBool(b) => b
    case VInt(i) => i != 0
    case VReal(r) => r != 0.0
    case VStr(s) => |s| > 0
    case VList(xs) => |xs| > 0
    case VDict(m) => |m| > 0
  }

  /** `d.get(k, default)`. */
  function Get(d: map<string, Value>, k: string, default: Value): (r: Value)
    ensures k in d ==> r == d[k]
    ensures k !in d ==> r == default
  {
    if k in d then d[k] else default
  }

  /** A value stored in an `int` field; the model keeps only Python ints. */
  function AsInt(v: Value): Option<int> {
    if v.VInt? then Some(v.i) else None
  }

  function AsStr(v: Value): Option<string> {
    if v.VStr? then Some(v.s) else None
  }

  /** `int(v)` on a number or bool. */
  function IntOf(v: Value): Option<int> {
    match v
    case VInt(i) => Some(i)
    case VBool(b) => Some(if b then 1 else 0)
    case VReal(r) => Some(TruncReal(r))
    case _ => None
  }

  /** `float(v)` on a number or bool. */
  function RealOf(v: Value): Option<real> {
    match v
    case VReal(r) => Some(r)
    case VInt(i) => Some(i as real)
    case VBool(b) => Some(if b then 1.0 else 0.0)
    case _ => None
  }

  /** An optional string field: `None` or a string. */
  function OptStrValue(o: Option<string>): Value {
    match o
    case None => VNone
    case Some(s) => VStr(s)
  }

  function OptStrOf(v: Value): Decoded<Option<string>> {
    match v
    case VNone => Ok(None)
    case VStr(s) => Ok(Some(s))
    case _ => Fail
  }

  function PairValue(p: Pos): Value {
    VList([VInt(p.0), VInt(p.1)])
  }

  /** `tuple(v)` where the model expects a pair of ints. */
  function PairOf(v: Value): Option<Pos> {
    if v.VList? && |v.items| == 2 && v.items[0].VInt? && v.items[1].VInt? then
      Some((v.items[0].i, v.items[1].i))
    else None
  }
}

/**
  Plugin input and output models: the type grammar of scripts/plugin_sdk.py, its compilation to
  JSON Schema (2020-12), the coercion of request values, the serialization of coerced values, and
  the example generator of scripts/plugin_dev.py.
*/
module PluginTypes {

  datatype Option<+T> = None | Some(value: T)

  // ---------------------------------------------------------------------------------------
  // Values and types

  /** A Python value: JSON data, or an instance of a dataclass. */
  datatype Value =
    | VNull
    | VBool(b: bool)
    | VInt(n: int)
    | VFloat(x: real)
    | VStr(s: string)
    | VList(items: seq<Value>)
    | VDict(entries: map<string, Value>)
    | VInst(cls: string, attrs: map<string, Value>)

  datatype Ty =
    | TAny
    | TNone
    | TBool
    | TInt
    | TFloat
    | TStr
    | TList(elem: Ty)
    | TDict(elem: Ty)
    | TLiteral(options: seq<Value>)
    | TData(cls: string, fields: seq<Field>)
    | TUnion(arms: seq<Ty>)

  /** A dataclass field; the default is the value of `default` or of one `default_factory` call. */
  datatype Field = Field(name: string, ty: Ty, default: Option<Value>)

  /**
    The parts of Python coercion relies on that are not the plugin SDK's own: str() of a value that
    is not a string, int() and float() of a string, strip().lower(), and the smallest integer
    float() refuses as too large (2**1024 - 2**970 in CPython).
  */
  datatype Python = Python(
    text: Value -> string,
    parseInt: string -> Option<int>,
    parseFloat: string -> Option<real>,
    normalize: string -> string,
    floatLimit: nat
  )

  predicate IsJson(v: Value) {
    match v
    case VList(items) => forall i :: 0 <= i < |items| ==> IsJson(items[i])
    case VDict(entries) => forall k :: k in entries ==> IsJson(entries[k])
    case VInst(_, _) => false
    case _ => true
  }

  /** A number as Python and JSON Schema compare it; True and False count as 1 and 0 only in Python. */
  function Number(v: Value): Option<real> {
    match v
    case VInt(n) => Some(n as real)
    case VFloat(x) => Some(x)
    case _ => None
  }

  function PyNumber(v: Value): Option<real> {
    if v.VBool? then Some(if v.b then 1.0 else 0.0) else Number(v)
  }

  predicate Scalar(v: Value) {
    v.VNull? || v.VBool? || v.VInt? || v.VFloat? || v.VStr?
  }

  /** Python's == between a value and a literal. */
  predicate PyEqual(v: Value, literal: Value) {
    if PyNumber(literal).Some? then PyNumber(v) == PyNumber(literal) else v == literal
  }

  /** Equality of JSON Schema: numbers by value, booleans only with booleans. */
  predicate JsonEqual(v: Value, literal: Value) {
    if Number(literal).Some? then Number(v) == Number(literal) else v == literal
  }

  // ---------------------------------------------------------------------------------------
  // coerce_model

  function Truncate(x: real): int {
    if x >= 0.0 then x.Floor else -((-x).Floor)
  }

  function CoerceBool(py: Python, v: Value): Option<Value> {
    match v
    case VBool(_) => Some(v)
    case VStr(s) =>
      var word := py.normalize(s);
      if word in {"true", "1", "yes"} then Some(VBool(true))
      else if word in {"false", "0", "no"} then Some(VBool(false))
      else None
    case _ => None
  }

  function CoerceInt(py: Python, v: Value): Option<Value> {
    match v
    case VBool(b) => Some(VInt(if b then 1 else 0))
    case VInt(_) => Some(v)
    case VFloat(x) => Some(VInt(Truncate(x)))
    case VStr(s) => (match py.parseInt(s) case None => None case Some(n) => Some(VInt(n)))
    case _ => None
  }

  function CoerceFloat(py: Python, v: Value): Option<Value> {
    match v
    case VBool(b) => Some(VFloat(if b then 1.0 else 0.0))
    case VInt(n) => if -(py.floatLimit as int) < n < py.floatLimit as int then Some(VFloat(n as real)) else None
    case VFloat(_) => Some(v)
    case VStr(s) => (match py.parseFloat(s) case None => None case Some(x) => Some(VFloat(x)))
    case _ => None
  }

  /** coerce_model; None stands for a raised exception. */
  function Coerce(py: Python, t: Ty, v: Value): Option<Value>
    decreases t, 1
  {
    match t
    case TAny => Some(v)
    case TNone => Some(v)
    case TBool => CoerceBool(py, v)
    case TInt => CoerceInt(py, v)
    case TFloat => CoerceFloat(py, v)
    case TStr => Some(VStr(if v.VStr? then v.s else py.text(v)))
    case TList(elem) =>
      if v.VList? && forall i :: 0 <= i < |v.items| ==> Coerce(py, elem, v.items[i]).Some?
      then Some(VList(seq(|v.items|, i requires 0 <= i < |v.items| => Coerce(py, elem, v.items[i]).value)))
      else None
    case TDict(elem) =>
      if v.VDict? && forall k :: k in v.entries ==> Coerce(py, elem, v.entries[k]).Some?
      then Some(VDict(map k | k in v.entries :: Coerce(py, elem, v.entries[k]).value))
      else None
    case TLiteral(options) =>
      if exists i :: 0 <= i < |options| && PyEqual(v, options[i]) then Some(v) else None
    case TData(cls, fields) =>
      if v.VInst? && v.cls == cls then Some(v)
      else if !v.VDict? then None
      else
        var attrs := CoerceFields(py, fields, v.entries);
        if attrs.Some? then Some(VInst(cls, attrs.value)) else None
    case TUnion(arms) =>
      if v.VNull? && TNone in arms then Some(VNull)
      else if forall i :: 0 <= i < |arms| ==> arms[i].TNone? then Some(v)
      else CoerceUnion(py, arms, v)
  }

  /** The keyword arguments of the dataclass, field by field; one field that raises fails them all. */
  function CoerceFields(py: Python, fields: seq<Field>, entries: map<string, Value>): Option<map<string, Value>>
    decreases fields, 0
  {
    if |fields| == 0 then Some(map[])
    else
      var last := fields[|fields| - 1];
      var before := CoerceFields(py, fields[..|fields| - 1], entries);
      var here := CoerceField(py, last, entries);
      if before.Some? && here.Some? then Some(before.value[last.name := here.value]) else None
  }

  function CoerceField(py: Python, f: Field, entries: map<string, Value>): Option<Value>
    decreases f, 2
  {
    if f.name in entries then Coerce(py, f.ty, entries[f.name]) else f.default
  }

  /** The first arm other than None that accepts the value wins. */
  function CoerceUnion(py: Python, arms: seq<Ty>, v: Value): Option<Value>
    decreases arms, 0
  {
    if |arms| == 0 then None
    else if !arms[0].TNone? && Coerce(py, arms[0], v).Some? then Coerce(py, arms[0], v)
    else CoerceUnion(py, arms[1..], v)
  }

  // ---------------------------------------------------------------------------------------
  // model_to_jsonable

  function Jsonable(v: Value): Value {
    match v
    case VList(items) => VList(seq(|items|, i requires 0 <= i < |items| => Jsonable(items[i])))
    case VDict(entries) => VDict(map k | k in entries :: Jsonable(entries[k]))
    case VInst(_, attrs) => VDict(map k | k in attrs :: Jsonable(attrs[k]))
    case _ => v
  }
}

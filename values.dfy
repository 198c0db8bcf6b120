/** The values the store holds and the handlers compute with: the
    JSON-representable part of Python's object space, with the few Python
    operators the demo handlers apply to them (`+`, `len`, `<`). */
module Values {
  import opened Wrappers

  /** A stored value: `None`, a bool, an int, a str, a list or a dict with
      string keys.  Floats are not part of the model. */
  datatype Value =
    | Null
    | Bool(b: bool)
    | Int(i: int)
    | Str(s: string)
    | List(elems: seq<Value>)
    | Obj(fields: map<string, Value>)

  /** The exception classes the handlers can raise. */
  datatype Exception = TypeError | KeyError | AttributeError

  /** What a Python call does: return a value or raise. */
  datatype Outcome<+T> = Returned(value: T) | Raised(error: Exception)

  /** The integer a value stands for in arithmetic: Python's `bool` is a
      subclass of `int`, so `True` counts as 1 and `False` as 0. */
  function AsInt(v: Value): (r: Option<int>)
    ensures r.Some? <==> v.Int? || v.Bool?
    ensures v.Int? ==> r == Some(v.i)
    ensures v.Bool? ==> r == Some(if v.b then 1 else 0)
  {
    match v
    case Int(i) => Some(i)
    case Bool(b) => Some(if b then 1 else 0)
    case _ => None
  }

  /** Python's binary `+` on stored values: numeric addition (bools count as
      ints), string and list concatenation, and `TypeError` otherwise. */
  function Add(a: Value, b: Value): (r: Outcome<Value>)
    ensures AsInt(a).Some? && AsInt(b).Some? ==> r == Returned(Int(AsInt(a).value + AsInt(b).value))
    ensures a.Str? && b.Str? ==> r == Returned(Str(a.s + b.s))
    ensures a.List? && b.List? ==> r == Returned(List(a.elems + b.elems))
    ensures r.Raised? <==> !((AsInt(a).Some? && AsInt(b).Some?) || (a.Str? && b.Str?) || (a.List? && b.List?))
    ensures r.Raised? ==> r.error == TypeError
  {
    if AsInt(a).Some? && AsInt(b).Some? then Returned(Int(AsInt(a).value + AsInt(b).value))
    else match (a, b)
      case (Str(x), Str(y)) => Returned(Str(x + y))
      case (List(x), List(y)) => Returned(List(x + y))
      case _ => Raised(TypeError)
  }

  /** Python's `len`: defined on str, list and dict; `TypeError` on None,
      bool and int. */
  function Len(v: Value): (r: Outcome<nat>)
    ensures r.Returned? <==> v.Str? || v.List? || v.Obj?
    ensures v.List? ==> r == Returned(|v.elems|)
    ensures v.Str? ==> r == Returned(|v.s|)
    ensures v.Obj? ==> r == Returned(|v.fields|)
    ensures r.Raised? ==> r.error == TypeError
  {
    match v
    case Str(s) => Returned(|s|)
    case List(elems) => Returned(|elems|)
    case Obj(fields) => Returned(|fields|)
    case _ => Raised(TypeError)
  }

  /** Python's `n < v` for an int `n`: a comparison when `v` is a number,
      `TypeError` when it is None, a str, a list or a dict. */
  function LessThan(n: int, v: Value): (r: Outcome<bool>)
    ensures r.Returned? <==> AsInt(v).Some?
    ensures r.Returned? ==> (r.value <==> n < AsInt(v).value)
    ensures r.Raised? ==> r.error == TypeError
  {
    match AsInt(v)
    case Some(m) => Returned(n < m)
    case None => Raised(TypeError)
  }
}

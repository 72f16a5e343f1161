/**
 * The JSON-shaped Python values that flow through the engine (work-order
 * payloads, Outlook events) and the exceptions an order can raise.
 */
module PyValues {
  import opened Wrappers
  import opened PyText

  /** A value decoded from JSON: `None`, `bool`, `int`, `str`, `list` or `dict`. */
  datatype Value =
    | VNull
    | VBool(b: bool)
    | VInt(i: int)
    | VStr(s: string)
    | VList(items: seq<Value>)
    | VDict(entries: map<string, Value>)

  /** A JSON object, the shape of a work order and of an Outlook event. */
  type Mapping = map<string, Value>

  /** Python's truth value of a JSON value. */
  predicate Truthy(v: Value) {
    match v
    case VNull => false
    case VBool(b) => b
    case VInt(i) => i != 0
    case VStr(s) => s != ""
    case VList(items) => items != []
    case VDict(entries) => entries != map[]
  }

  /** `type(v).__name__`. */
  function TypeName(v: Value): string {
    match v
    case VNull => "NoneType"
    case VBool(_) => "bool"
    case VInt(_) => "int"
    case VStr(_) => "str"
    case VList(_) => "list"
    case VDict(_) => "dict"
  }

  /** The number a `bool` or an `int` stands for in arithmetic and comparisons (`True == 1`). */
  function Numeric(v: Value): Option<int> {
    match v
    case VBool(b) => Some(if b then 1 else 0)
    case VInt(i) => Some(i)
    case _ => None
  }

  /**
   * Python's `a == b` on JSON values: structural, except that a `bool` equals the
   * `int` it stands for.
   */
  predicate Eq(a: Value, b: Value)
    decreases a
  {
    if Numeric(a).Some? || Numeric(b).Some? then Numeric(a) == Numeric(b)
    else match (a, b)
      case (VNull, VNull) => true
      case (VStr(s), VStr(t)) => s == t
      case (VList(xs), VList(ys)) => |xs| == |ys| && forall i :: 0 <= i < |xs| ==> Eq(xs[i], ys[i])
      case (VDict(m), VDict(n)) => m.Keys == n.Keys && forall k :: k in m ==> Eq(m[k], n[k])
      case _ => false
  }

  /** Every value equals itself. */
  lemma {:induction false} EqReflexive(v: Value)
    ensures Eq(v, v)
    decreases v
  {
    match v
    case VList(xs) =>
      forall i | 0 <= i < |xs|
        ensures Eq(xs[i], xs[i])
      {
        EqReflexive(xs[i]);
      }
    case VDict(m) =>
      forall k | k in m
        ensures Eq(m[k], m[k])
      {
        EqReflexive(m[k]);
      }
    case _ =>
  }

  /** `m.get(k)`: None when the key is absent (a present `None` is `Some(VNull)`). */
  function Get(m: Mapping, k: string): (r: Option<Value>)
    ensures r.Some? <==> k in m
    ensures r.Some? ==> r.value == m[k]
  {
    if k in m then Some(m[k]) else None
  }

  /** `isinstance(m.get(k), str)`. */
  predicate IsStrAt(m: Mapping, k: string) {
    k in m && m[k].VStr?
  }

  /** `bool(m.get(k))`. */
  predicate TruthyAt(m: Mapping, k: string) {
    k in m && Truthy(m[k])
  }

  /** `m.get(k) is None`. */
  predicate IsNoneAt(m: Mapping, k: string) {
    k !in m || m[k] == VNull
  }

  /** `m.get(k, None)` seen as a value: an absent key reads as `None`. */
  function GetOrNull(m: Mapping, k: string): Value {
    if k in m then m[k] else VNull
  }

  /**
   * `v == o` where `o` is a string or `None`: Python never equates a string
   * with an int or a bool, and `None` only with `None`.
   */
  predicate SameValue(v: Value, o: Option<string>) {
    match o
    case None => v == VNull
    case Some(s) => v == VStr(s)
  }

  const StrIndexText: string := "string indices must be integers, not 'str'"
  const ListIndexText: string := "list indices must be integers or slices, not str"
  const UnhashableSliceText: string := "unhashable type: 'slice'"
  const IntArgumentText: string := "int() argument must be a string, a bytes-like object or a real number, not '"
  const NotSubscriptableText: string := "' object is not subscriptable"

  /** The TypeError of subscripting a value that has no items at all. */
  function NotSubscriptable(v: Value): Exc {
    Raised("'" + TypeName(v) + NotSubscriptableText)
  }

  /** `v[key]` with a string key on a value that is not a dict: the TypeError Python raises. */
  function SubscriptError(v: Value): Exc {
    match v
    case VStr(_) => Raised(StrIndexText)
    case VList(_) => Raised(ListIndexText)
    case _ => NotSubscriptable(v)
  }

  /** `v[n:]`: a string or a list loses its first `n` elements (fewer if it is shorter). */
  function SliceFrom(v: Value, n: nat): (r: Result<Value, Exc>)
    ensures r.Ok? <==> v.VStr? || v.VList?
    ensures v.VStr? ==> r == Ok(VStr(DropPrefix(v.s, n)))
    ensures v.VList? ==> r.Ok? && r.value.VList? && |r.value.items| == if |v.items| <= n then 0 else |v.items| - n
    ensures v.VList? ==> forall i :: 0 <= i < |r.value.items| ==> r.value.items[i] == v.items[n + i]
  {
    match v
    case VStr(s) => Ok(VStr(DropPrefix(s, n)))
    case VList(xs) => Ok(VList(if |xs| <= n then [] else xs[n..]))
    case VDict(_) => Err(Raised(UnhashableSliceText))
    case _ => Err(NotSubscriptable(v))
  }

  /** `int(v)`: a string must hold a decimal literal; a `bool` or an `int` converts; the rest is a TypeError. */
  function IntOf(v: Value): (r: Result<int, Exc>)
    ensures v.VStr? ==> (r.Ok? <==> PyInt(v.s).Some?)
    ensures v.VStr? && r.Ok? ==> r.value == PyInt(v.s).value
    ensures v.VStr? && r.Err? ==> r.error == ValueError("int", v.s)
    ensures Numeric(v).Some? ==> r == Ok(Numeric(v).value)
    ensures !v.VStr? && Numeric(v).None? ==> r.Err? && !r.error.ValueError?
  {
    match v
    case VStr(s) => (match PyInt(s) case Some(i) => Ok(i) case None => Err(ValueError("int", s)))
    case VBool(b) => Ok(if b then 1 else 0)
    case VInt(i) => Ok(i)
    case _ => Err(Raised(IntArgumentText + TypeName(v) + "'"))
  }

  /**
   * An exception an order can raise. A ValueError is recorded as its traceback, which
   * the model identifies by the call that raised it and that call's argument; every
   * other exception is recorded as `str(e)`.
   */
  datatype Exc =
    | ValueError(call: string, argument: string)
    | Raised(text: string)

  /** `str(KeyError(key))`: the key in single quotes. */
  function KeyError(key: string): Exc {
    Raised("'" + key + "'")
  }
}

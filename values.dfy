/**
 * Runtime values of the Eidos interpreter (and of the older SLiMScript
 * interpreter, which uses the same value model): type tags ordered as the
 * C++ enum orders them, vector elements, vector values, promotion of an
 * element to a higher type, element equality and ordering, and the errors
 * the builtins raise.
 *
 * Floating-point elements are exact reals plus an explicit NaN: rounding and
 * infinities are not modelled.
 */
module EidosValue {

  const INT64_MIN: int := -0x8000_0000_0000_0000
  const INT64_MAX: int := 0x7FFF_FFFF_FFFF_FFFF
  const TWO_64: int := 0x1_0000_0000_0000_0000

  predicate InInt64(x: int) { INT64_MIN <= x <= INT64_MAX }

  /** The value a two's complement int64 register holds after an operation whose exact result is x. */
  function Wrap64(x: int): (r: int)
    ensures InInt64(r)
    ensures (r - x) % TWO_64 == 0
    ensures InInt64(x) ==> r == x
  {
    (x - INT64_MIN) % TWO_64 + INT64_MIN
  }

  /** C++ integer division: truncates toward zero (Dafny's / is Euclidean). */
  function TruncDiv(a: int, b: int): (q: int)
    requires b != 0
    ensures a >= 0 && b > 0 ==> q == a / b
  {
    if (a >= 0) == (b > 0) then Abs(a) / Abs(b) else -(Abs(a) / Abs(b))
  }

  function Abs(x: int): (r: nat)
    ensures r == x || r == -x
  {
    if x < 0 then -x else x
  }

  datatype Option<T> = None | Some(value: T)

  /** An IEEE double as the model sees it: an exact real, or NaN. */
  datatype Double = Num(r: real) | NaN

  /** A pointer to an object element; cls is the name of its class. */
  datatype ObjRef = ObjRef(id: nat, cls: string)

  /** EidosValueType, in the order of its enum: comparisons of types use this order. */
  datatype ValueType = NullT | LogicalT | IntT | FloatT | StringT | ObjectT

  function Rank(t: ValueType): (n: nat)
    ensures n <= 5
    ensures t == NullT <==> n == 0
    ensures t == ObjectT <==> n == 5
  {
    match t
    case NullT => 0
    case LogicalT => 1
    case IntT => 2
    case FloatT => 3
    case StringT => 4
    case ObjectT => 5
  }

  datatype Elem =
    | LogicalE(b: bool)
    | IntE(i: int)
    | FloatE(f: Double)
    | StringE(s: string)
    | ObjectE(o: ObjRef)

  function ElemType(e: Elem): (t: ValueType)
    ensures t != NullT
  {
    match e
    case LogicalE(_) => LogicalT
    case IntE(_) => IntT
    case FloatE(_) => FloatT
    case StringE(_) => StringT
    case ObjectE(_) => ObjectT
  }

  /**
   * An Eidos value: NULL (visible or invisible) or a vector of one type.
   * Only NULL carries the invisible flag here, because only an all-NULL
   * result passes invisibility on.
   */
  datatype Value = Null(invisible: bool) | Vector(vt: ValueType, elems: seq<Elem>)
  {
    function Type(): ValueType { if Null? then NullT else vt }
    function Count(): nat { if Null? then 0 else |elems| }
    function Elems(): seq<Elem> { if Null? then [] else elems }
  }

  predicate IsNaN(e: Elem) { e.FloatE? && e.f.NaN? }

  /** Every element has the value's type, integers fit in int64, and an object vector has one class. */
  predicate WellFormed(v: Value)
  {
    v.Vector? ==>
      && v.vt != NullT
      && (forall i :: 0 <= i < |v.elems| ==> ElemType(v.elems[i]) == v.vt)
      && (forall i :: 0 <= i < |v.elems| ==> (v.elems[i].IntE? ==> InInt64(v.elems[i].i)))
      && (forall i :: 0 <= i < |v.elems| ==> (v.elems[i].ObjectE? ==> v.elems[i].o.cls == v.elems[0].o.cls))
  }

  predicate AllWellFormed(vs: seq<Value>)
  {
    forall i :: 0 <= i < |vs| ==> WellFormed(vs[i])
  }

  /** NewMatchingType(): an empty value of the same type (and class). */
  function EmptyLike(v: Value): (r: Value)
    ensures r.Type() == v.Type() && r.Count() == 0
  {
    if v.Null? then Null(false) else Vector(v.vt, [])
  }

  /** A value of x's type holding es. */
  function WithElems(x: Value, es: seq<Elem>): Value
  {
    if x.Null? then Null(false) else Vector(x.vt, es)
  }

  function Digit(d: nat): (c: char)
    requires d < 10
    ensures '0' <= c <= '9'
  {
    "0123456789"[d]
  }

  function NatToString(n: nat): (s: string)
    ensures |s| > 0 && '0' <= s[0] <= '9'
    decreases n
  {
    if n < 10 then [Digit(n)] else NatToString(n / 10) + [Digit(n % 10)]
  }

  function IntToString(i: int): (s: string)
    ensures |s| > 0
    ensures i < 0 <==> s[0] == '-'
  {
    if i < 0 then "-" + NatToString(-i) else NatToString(i)
  }

  /** StringAtIndex of a non-object element; fmt renders a double (that code is not part of this model). */
  function ElemToString(e: Elem, fmt: Double -> string): string
    requires !e.ObjectE?
  {
    match e
    case LogicalE(b) => if b then "T" else "F"
    case IntE(i) => IntToString(i)
    case FloatE(f) => fmt(f)
    case StringE(s) => s
  }

  /**
   * The element as the accessor of the higher type t reads it
   * (LogicalAtIndex, IntAtIndex, FloatAtIndex or StringAtIndex).
   */
  function Promote(e: Elem, t: ValueType, fmt: Double -> string): (r: Elem)
    requires !e.ObjectE? && t != ObjectT && Rank(ElemType(e)) <= Rank(t)
    ensures ElemType(r) == t
    ensures ElemType(e) == t ==> r == e
  {
    match t
    case LogicalT => e
    case IntT => if e.LogicalE? then IntE(if e.b then 1 else 0) else e
    case FloatT =>
      (match e
       case LogicalE(b) => FloatE(Num(if b then 1.0 else 0.0))
       case IntE(i) => FloatE(Num(i as real))
       case _ => e)
    case StringT => StringE(ElemToString(e, fmt))
  }

  /** Element equality as the builtins test it: NaN equals nothing, objects compare by identity. */
  predicate ElemEq(a: Elem, b: Elem)
  {
    a == b && !IsNaN(a)
  }

  /** Lexicographic order of std::string::compare. */
  predicate StrLess(a: string, b: string)
    decreases |a|
  {
    if |a| == 0 then |b| > 0
    else if |b| == 0 then false
    else if a[0] != b[0] then a[0] < b[0]
    else StrLess(a[1..], b[1..])
  }

  /** operator< on two elements of the same type: F < T, numeric order, lexicographic strings; NaN compares false. */
  predicate ElemLess(a: Elem, b: Elem)
  {
    match (a, b)
    case (LogicalE(x), LogicalE(y)) => !x && y
    case (IntE(x), IntE(y)) => x < y
    case (FloatE(Num(x)), FloatE(Num(y))) => x < y
    case (StringE(x), StringE(y)) => StrLess(x, y)
    case _ => false
  }

  /** A sequence of elements on which operator< is a strict total order: one non-object type and no NaN. */
  predicate Comparable(es: seq<Elem>)
  {
    && (forall i :: 0 <= i < |es| ==> !es[i].ObjectE? && !IsNaN(es[i]))
    && (forall i :: 0 <= i < |es| ==> ElemType(es[i]) == ElemType(es[0]))
  }

  lemma {:induction false} StrLessIrreflexive(a: string)
    ensures !StrLess(a, a)
    decreases |a|
  {
    if |a| > 0 { StrLessIrreflexive(a[1..]); }
  }

  lemma {:induction false} StrLessTransitive(a: string, b: string, c: string)
    requires StrLess(a, b) && StrLess(b, c)
    ensures StrLess(a, c)
    decreases |a|
  {
    if |a| > 0 && |b| > 0 && |c| > 0 && a[0] == b[0] && b[0] == c[0] {
      StrLessTransitive(a[1..], b[1..], c[1..]);
    }
  }

  lemma {:induction false} StrLessTotal(a: string, b: string)
    requires a != b
    ensures StrLess(a, b) || StrLess(b, a)
    decreases |a|
  {
    if |a| > 0 && |b| > 0 && a[0] == b[0] {
      assert a == [a[0]] + a[1..] && b == [b[0]] + b[1..];
      StrLessTotal(a[1..], b[1..]);
    }
  }

  /** operator< is a strict total order on elements of one comparable type. */
  lemma ElemLessOrder(a: Elem, b: Elem, c: Elem)
    requires Comparable([a, b, c])
    ensures !ElemLess(a, a)
    ensures ElemLess(a, b) && ElemLess(b, c) ==> ElemLess(a, c)
    ensures a != b ==> ElemLess(a, b) || ElemLess(b, a)
    ensures ElemLess(a, b) ==> !ElemLess(b, a)
  {
    var s := [a, b, c];
    assert s[0] == a && s[1] == b && s[2] == c;
    assert ElemType(b) == ElemType(a) && ElemType(c) == ElemType(a);
    assert !IsNaN(a) && !IsNaN(b) && !IsNaN(c);
    match a
    case StringE(x) =>
      StrLessIrreflexive(x);
      if ElemLess(a, b) && ElemLess(b, c) { StrLessTransitive(x, b.s, c.s); }
      if a != b { StrLessTotal(x, b.s); }
      if ElemLess(a, b) && ElemLess(b, a) { StrLessTransitive(x, b.s, x); }
    case _ =>
  }

  /** The errors the modelled code raises; Internal marks the interpreter's own logic errors. */
  datatype Error =
    | NullNotAllowed
    | ObjectClassMismatch
    | ObjectNonObjectMix
    | AbsMostNegative
    | IntegerOverflow
    | DivisionByZero
    | SeqByZero
    | SeqBySign
    | NegativeCount
    | CountSizeMismatch
    | TypeMismatch
    | LengthMismatch
    | SubscriptOutOfRange
    | UnrecognizedFunction(name: string)
    | MethodNotDefined(name: string)
    | ArgumentError
    | ReturnError
    | Internal
    | TagUnset
    | TagFUnset
    | FitnessScalingInvalid
    | PedigreesDisabled
    | NonSpatial
    | TooFewCoordinates
    | PositionCountMismatch
    | HeaderLocked
    | ParseFailure
    | IntervalInvalid
    | PrecisionOutOfRange

  datatype Result<T> = Ok(value: T) | Err(error: Error)
  {
    predicate IsFailure() { Err? }
    function PropagateFailure<U>(): Result<U> requires Err? { Err(error) }
    function Extract(): T requires Ok? { value }
  }

  /** Outcome of an operation that only changes state: it either completes or raises. */
  datatype Outcome = Pass | Fail(error: Error)
}

/**
 * The arithmetic builtins of eidos_functions.cpp whose integer behaviour is
 * exact: abs(), and the integer and logical branches of sum() and product().
 * An integer sum or product is computed in a checked int64 accumulator; when
 * an addition (multiplication) would overflow, the accumulator so far is
 * flushed into a double accumulator and integer accumulation restarts from
 * the overflowing term. The result is an integer exactly when no overflow
 * happened, and a float otherwise.
 */
module EidosArith {
  import opened EidosValue

  /** The magnitude of a numeric element; NAN stays NAN. */
  function AbsElem(e: Elem): Elem
  {
    match e
    case IntE(i) => IntE(Abs(i))
    case FloatE(Num(v)) => FloatE(Num(if v < 0.0 then -v else v))
    case _ => e
  }

  predicate NonNegative(e: Elem)
  {
    match e
    case IntE(i) => i >= 0
    case FloatE(Num(v)) => v >= 0.0
    case _ => true
  }

  /** Taking the magnitude twice changes nothing, and a magnitude is never negative. */
  lemma AbsElemIdempotent(e: Elem)
    ensures AbsElem(AbsElem(e)) == AbsElem(e)
    ensures NonNegative(AbsElem(e))
    ensures NonNegative(e) ==> AbsElem(e) == e
  {
  }

  /**
   * abs(): the magnitude of every element, as the singleton and the vector
   * branches both compute it; an integer whose magnitude does not fit in
   * int64 (the most negative integer) raises.
   */
  method AbsValue(x: Value) returns (r: Result<Value>)
    requires WellFormed(x) && (x.Type() == IntT || x.Type() == FloatT)
    ensures r.Err? <==> exists i :: 0 <= i < x.Count() && x.elems[i] == IntE(INT64_MIN)
    ensures r.Err? ==> r.error == AbsMostNegative
    ensures r.Ok? ==> WellFormed(r.value) && r.value.Type() == x.Type() && r.value.Count() == x.Count()
    ensures r.Ok? ==> forall i :: 0 <= i < x.Count() ==> r.value.elems[i] == AbsElem(x.elems[i]) && NonNegative(r.value.elems[i])
  {
    var out: seq<Elem> := [];
    var i := 0;
    while i < |x.elems|
      invariant 0 <= i <= |x.elems|
      invariant |out| == i
      invariant forall k :: 0 <= k < i ==> x.elems[k] != IntE(INT64_MIN)
      invariant forall k :: 0 <= k < i ==> out[k] == AbsElem(x.elems[k]) && ElemType(out[k]) == x.vt
      invariant forall k :: 0 <= k < i ==> out[k].IntE? ==> InInt64(out[k].i)
    {
      var e := x.elems[i];
      assert ElemType(e) == x.vt;
      if e.IntE? {
        var a := Abs(e.i);
        if a > INT64_MAX {
          return Err(AbsMostNegative);
        }
        out := out + [IntE(a)];
      } else {
        out := out + [AbsElem(e)];
      }
      i := i + 1;
    }
    r := Ok(Vector(x.vt, out));
    forall k | 0 <= k < |out| ensures NonNegative(out[k]) {
      AbsElemIdempotent(x.elems[k]);
    }
  }

  /** The exact sum of a sequence of integers. */
  function Total(xs: seq<int>): int
    decreases |xs|
  {
    if |xs| == 0 then 0 else Total(xs[..|xs| - 1]) + xs[|xs| - 1]
  }

  /** The exact product of a sequence of integers. */
  function Prod(xs: seq<int>): int
    decreases |xs|
  {
    if |xs| == 0 then 1 else Prod(xs[..|xs| - 1]) * xs[|xs| - 1]
  }

  /** Every partial sum, in order, stays within int64. */
  predicate PrefixSumsFit(xs: seq<int>)
  {
    forall k :: 0 <= k <= |xs| ==> InInt64(Total(xs[..k]))
  }

  /** Every partial product, in order, stays within int64. */
  predicate PrefixProductsFit(xs: seq<int>)
  {
    forall k :: 0 <= k <= |xs| ==> InInt64(Prod(xs[..k]))
  }

  lemma PrefixSumsFitSnoc(xs: seq<int>, i: nat)
    requires i < |xs|
    ensures Total(xs[..i + 1]) == Total(xs[..i]) + xs[i]
    ensures PrefixSumsFit(xs[..i + 1]) <==> PrefixSumsFit(xs[..i]) && InInt64(Total(xs[..i + 1]))
  {
    var p, q := xs[..i + 1], xs[..i];
    assert p[..i] == q;
    assert forall k :: 0 <= k <= i ==> p[..k] == q[..k];
    assert p[..i + 1] == p;
  }

  lemma PrefixProductsFitSnoc(xs: seq<int>, i: nat)
    requires i < |xs|
    ensures Prod(xs[..i + 1]) == Prod(xs[..i]) * xs[i]
    ensures PrefixProductsFit(xs[..i + 1]) <==> PrefixProductsFit(xs[..i]) && InInt64(Prod(xs[..i + 1]))
  {
    var p, q := xs[..i + 1], xs[..i];
    assert p[..i] == q;
    assert forall k :: 0 <= k <= i ==> p[..k] == q[..k];
    assert p[..i + 1] == p;
  }

  /**
   * The integer branch of sum(): the result is an integer exactly when no
   * partial sum overflowed, and in either case it carries the exact sum
   * (the float's own rounding is not modelled). The invariant
   * sum_d + sum == partial sum is what the flush order keeps.
   */
  method SumIntegers(xs: seq<int>) returns (r: Elem)
    requires forall i :: 0 <= i < |xs| ==> InInt64(xs[i])
    ensures PrefixSumsFit(xs) ==> r == IntE(Total(xs))
    ensures !PrefixSumsFit(xs) ==> r == FloatE(Num(Total(xs) as real))
  {
    if |xs| == 1 {
      PrefixSumsFitSnoc(xs, 0);
      assert xs[..1] == xs;
      return IntE(xs[0]);
    }
    var sum, sumD, fits := 0, 0.0, true;
    var i := 0;
    while i < |xs|
      invariant 0 <= i <= |xs|
      invariant InInt64(sum)
      invariant sumD + sum as real == Total(xs[..i]) as real
      invariant fits <==> PrefixSumsFit(xs[..i])
      invariant fits ==> sum == Total(xs[..i])
    {
      var oldSum, temp := sum, xs[i];
      PrefixSumsFitSnoc(xs, i);
      if InInt64(oldSum + temp) {
        sum := oldSum + temp;
      } else {
        fits := false;
        sumD := sumD + oldSum as real;
        sum := temp;
      }
      i := i + 1;
    }
    sumD := sumD + sum as real;
    assert xs[..i] == xs;
    if fits {
      r := IntE(sum);
    } else {
      r := FloatE(Num(sumD));
    }
  }

  /**
   * The integer branch of product(): an integer exactly when no partial
   * product overflowed, and the exact product either way; the invariant is
   * product_d * product == partial product.
   */
  method ProductIntegers(xs: seq<int>) returns (r: Elem)
    requires forall i :: 0 <= i < |xs| ==> InInt64(xs[i])
    ensures PrefixProductsFit(xs) ==> r == IntE(Prod(xs))
    ensures !PrefixProductsFit(xs) ==> r == FloatE(Num(Prod(xs) as real))
  {
    if |xs| == 1 {
      PrefixProductsFitSnoc(xs, 0);
      assert xs[..1] == xs;
      return IntE(xs[0]);
    }
    var product, productD, fits := 1, 1.0, true;
    var i := 0;
    while i < |xs|
      invariant 0 <= i <= |xs|
      invariant InInt64(product)
      invariant productD * product as real == Prod(xs[..i]) as real
      invariant fits <==> PrefixProductsFit(xs[..i])
      invariant fits ==> product == Prod(xs[..i]) && productD == 1.0
    {
      var oldProduct, temp := product, xs[i];
      PrefixProductsFitSnoc(xs, i);
      if InInt64(oldProduct * temp) {
        product := oldProduct * temp;
        assert productD * product as real == (productD * oldProduct as real) * temp as real;
      } else {
        fits := false;
        productD := productD * oldProduct as real;
        product := temp;
      }
      i := i + 1;
    }
    productD := productD * product as real;
    assert xs[..i] == xs;
    if fits {
      r := IntE(product);
    } else {
      r := FloatE(Num(productD));
    }
  }

  function CountTrue(bs: seq<bool>): nat
    decreases |bs|
  {
    if |bs| == 0 then 0 else CountTrue(bs[..|bs| - 1]) + (if bs[|bs| - 1] then 1 else 0)
  }

  /** The logical branch of sum(): the number of T elements, as an integer. */
  method SumLogical(bs: seq<bool>) returns (r: int)
    ensures r == CountTrue(bs) && 0 <= r <= |bs|
  {
    r := 0;
    var i := 0;
    while i < |bs|
      invariant 0 <= i <= |bs|
      invariant r == CountTrue(bs[..i]) <= i
    {
      assert bs[..i + 1][..i] == bs[..i];
      if bs[i] {
        r := r + 1;
      }
      i := i + 1;
    }
    assert bs[..i] == bs;
  }

  /** A sum whose exact value fits can still be a float, because an intermediate partial sum overflowed. */
  lemma SumOverflowIsPerPrefix()
    ensures !PrefixSumsFit([INT64_MAX, 1, -1]) && Total([INT64_MAX, 1, -1]) == INT64_MAX
  {
    var xs := [INT64_MAX, 1, -1];
    var a, b := [INT64_MAX], [INT64_MAX, 1];
    assert a[..0] == [] && b[..1] == a && xs[..2] == b && xs[..3] == xs;
    assert Total(a) == INT64_MAX;
    assert Total(b) == INT64_MAX + 1;
  }
}

/**
 * Vector-building builtins of eidos_functions.cpp: the integer branch of
 * seq(), rep(), repEach(), identical() and ifelse().
 */
module EidosVectors {
  import opened EidosValue

  // ---------------------------------------------------------------- seq()

  /** The step seq() uses: the supplied one, else 1 counting up and -1 otherwise (also when start == stop). */
  function EffectiveBy(start: int, stop: int, step: Option<int>): int
  {
    if step.Some? then step.value else if start < stop then 1 else -1
  }

  /** A step that can never reach stop from start. */
  predicate WrongSign(start: int, stop: int, b: int)
  {
    (start < stop && b < 0) || (start > stop && b > 0)
  }

  /** s is the arithmetic progression start, start + b, start + 2b, ... */
  predicate Progression(s: seq<int>, start: int, b: int)
  {
    forall k :: 0 <= k < |s| ==> s[k] == start + k * b
  }

  /** Every element of s lies between start and stop, whichever is larger. */
  predicate Between(s: seq<int>, start: int, stop: int)
  {
    forall k :: 0 <= k < |s| ==> (start <= s[k] <= stop || stop <= s[k] <= start)
  }

  /**
   * The integer branch of seq(): a zero step and a step of the wrong sign
   * raise; otherwise the result is the progression from start (seq()'s from)
   * by the step, between start and stop (seq()'s to), and it ends just
   * before the first value past stop.
   */
  method SeqInt(start: int, stop: int, step: Option<int>) returns (r: Result<seq<int>>)
    requires InInt64(start) && InInt64(stop) && (step.Some? ==> InInt64(step.value))
    ensures r.Ok? <==> EffectiveBy(start, stop, step) != 0 && !WrongSign(start, stop, EffectiveBy(start, stop, step))
    ensures EffectiveBy(start, stop, step) == 0 <==> r == Err(SeqByZero)
    ensures EffectiveBy(start, stop, step) != 0 && WrongSign(start, stop, EffectiveBy(start, stop, step)) <==> r == Err(SeqBySign)
    ensures r.Ok? ==> var s, b := r.value, EffectiveBy(start, stop, step);
      && |s| > 0 && Progression(s, start, b) && Between(s, start, stop)
      && (if b > 0 then start + |s| * b > stop else start + |s| * b < stop)
  {
    var b := EffectiveBy(start, stop, step);
    if b == 0 {
      return Err(SeqByZero);
    }
    if WrongSign(start, stop, b) {
      return Err(SeqBySign);
    }
    var out;
    if b > 0 {
      out := CountUp(start, stop, b);
    } else {
      out := CountDown(start, stop, b);
    }
    r := Ok(out);
  }

  /** The loop of seq() for a positive step. */
  method CountUp(start: int, stop: int, b: int) returns (out: seq<int>)
    requires b > 0 && start <= stop
    ensures |out| > 0 && Progression(out, start, b) && Between(out, start, stop)
    ensures start + |out| * b > stop
  {
    out := [];
    var v := start;
    while v <= stop
      invariant v == start + |out| * b && start <= v
      invariant Progression(out, start, b)
      invariant forall k :: 0 <= k < |out| ==> start <= out[k] <= stop
      decreases stop - v
    {
      out := out + [v];
      v := v + b;
    }
  }

  /** The loop of seq() for a negative step. */
  method CountDown(start: int, stop: int, b: int) returns (out: seq<int>)
    requires b < 0 && stop <= start
    ensures |out| > 0 && Progression(out, start, b) && Between(out, start, stop)
    ensures start + |out| * b < stop
  {
    out := [];
    var v := start;
    while v >= stop
      invariant v == start + |out| * b && v <= start
      invariant Progression(out, start, b)
      invariant forall k :: 0 <= k < |out| ==> stop <= out[k] <= start
      decreases v - stop
    {
      out := out + [v];
      v := v + b;
    }
  }

  /** The loop step of seq() as the int64 register computes it: the addition wraps on overflow. */
  function SeqStepAsWritten(v: int, b: int): int
  {
    Wrap64(v + b)
  }

  /**
   * seq(9223372036854775806, 9223372036854775807, 2) as written: after the
   * first value the step overflows to a negative value that still passes the
   * v <= stop test, so the loop goes on with values outside [start, stop].
   */
  lemma SeqOverflowAsWritten()
    ensures var start, stop := INT64_MAX - 1, INT64_MAX;
      var v := SeqStepAsWritten(start, 2);
      v <= stop && v < start
  {
    assert Wrap64(INT64_MAX + 1) == INT64_MIN;
  }

  // ---------------------------------------------------------------- rep()

  /** c copies of es, one after another. */
  function Repeat(es: seq<Elem>, c: nat): seq<Elem>
    decreases c
  {
    if c == 0 then [] else Repeat(es, c - 1) + es
  }

  lemma {:induction false} RepeatLength(es: seq<Elem>, c: nat)
    ensures |Repeat(es, c)| == c * |es|
    decreases c
  {
    if c > 0 {
      RepeatLength(es, c - 1);
      assert c * |es| == (c - 1) * |es| + |es|;
    }
  }

  lemma {:induction false} MulAtLeast(a: int, n: int)
    requires a >= 1 && n > 0
    ensures a * n >= n
    decreases a
  {
    if a > 1 {
      MulAtLeast(a - 1, n);
      assert a * n == (a - 1) * n + n;
    }
  }

  /** Euclidean division of m * n + j by n, for 0 <= j < n. */
  lemma ModOfBlock(m: nat, n: nat, j: nat)
    requires j < n
    ensures (m * n + j) % n == j
    ensures (m * n + j) / n == m
  {
    var x := m * n + j;
    var q, r := x / n, x % n;
    assert q * n + r == x;
    assert (q - m) * n == j - r;
    if q - m >= 1 {
      MulAtLeast(q - m, n);
    } else if q - m <= -1 {
      MulAtLeast(m - q, n);
    }
  }

  /** k < m * c puts k / c below m. */
  lemma DivBelow(k: nat, c: nat, m: nat)
    requires k < m * c
    ensures k / c < m
  {
  }

  /** Element k of c copies of es is es[k mod |es|]. */
  lemma {:induction false} RepeatAt(es: seq<Elem>, c: nat, k: nat)
    requires k < c * |es|
    ensures |Repeat(es, c)| == c * |es| && Repeat(es, c)[k] == es[k % |es|]
    decreases c
  {
    RepeatLength(es, c);
    var n := |es|;
    assert c * n == (c - 1) * n + n;
    if k < (c - 1) * n {
      RepeatAt(es, c - 1, k);
    } else {
      RepeatLength(es, c - 1);
      ModOfBlock(c - 1, n, k - (c - 1) * n);
    }
  }

  /**
   * rep(): a negative count raises; otherwise count copies of x, of x's
   * type, so that element k is x[k mod n].
   */
  method Rep(x: Value, count: int) returns (r: Result<Value>)
    ensures r.Ok? <==> count >= 0
    ensures count < 0 <==> r == Err(NegativeCount)
    ensures r.Ok? ==> r.value.Type() == x.Type() && r.value.Count() == count * x.Count()
    ensures r.Ok? ==> forall k :: 0 <= k < r.value.Count() ==> r.value.Elems()[k] == x.Elems()[k % x.Count()]
  {
    if count < 0 {
      return Err(NegativeCount);
    }
    var es := x.Elems();
    var out: seq<Elem> := [];
    var i := 0;
    while i < count
      invariant 0 <= i <= count
      invariant out == Repeat(es, i)
    {
      var j := 0;
      while j < |es|
        invariant 0 <= j <= |es|
        invariant out == Repeat(es, i) + es[..j]
      {
        out := out + [es[j]];
        j := j + 1;
      }
      assert es[..j] == es;
      i := i + 1;
    }
    RepeatLength(es, count);
    r := Ok(WithElems(x, out));
    if x.Null? {
      assert out == [];
    }
    forall k | 0 <= k < |out| ensures out[k] == es[k % |es|] {
      RepeatAt(es, count, k);
    }
  }

  // ---------------------------------------------------------------- repEach()

  function Replicate(e: Elem, c: nat): (s: seq<Elem>)
    ensures |s| == c && forall k :: 0 <= k < c ==> s[k] == e
  {
    seq(c, _ => e)
  }

  /** Each element of es repeated its own count of times, in order. */
  function RepEachSeq(es: seq<Elem>, cs: seq<nat>): seq<Elem>
    requires |cs| == |es|
    decreases |es|
  {
    if |es| == 0 then []
    else RepEachSeq(es[..|es| - 1], cs[..|cs| - 1]) + Replicate(es[|es| - 1], cs[|cs| - 1])
  }

  function SumNat(cs: seq<nat>): nat
    decreases |cs|
  {
    if |cs| == 0 then 0 else SumNat(cs[..|cs| - 1]) + cs[|cs| - 1]
  }

  /** The same count for every element. */
  function Uniform(n: nat, c: nat): (cs: seq<nat>)
    ensures |cs| == n && forall k :: 0 <= k < n ==> cs[k] == c
  {
    seq(n, _ => c)
  }

  /** The length of a repEach() result is the sum of the counts. */
  lemma {:induction false} RepEachLength(es: seq<Elem>, cs: seq<nat>)
    requires |cs| == |es|
    ensures |RepEachSeq(es, cs)| == SumNat(cs)
    decreases |es|
  {
    if |es| > 0 {
      RepEachLength(es[..|es| - 1], cs[..|cs| - 1]);
    }
  }

  /** With one count c for all, element k of the result is x[k / c]. */
  lemma {:induction false} RepEachUniformAt(es: seq<Elem>, c: nat, k: nat)
    requires k < |es| * c
    ensures |RepEachSeq(es, Uniform(|es|, c))| == |es| * c
    ensures RepEachSeq(es, Uniform(|es|, c))[k] == es[k / c]
    decreases |es|
  {
    var n := |es|;
    var p := es[..n - 1];
    assert Uniform(n, c)[..n - 1] == Uniform(n - 1, c);
    assert n * c == (n - 1) * c + c;
    RepEachUniformLength(p, c);
    if k < (n - 1) * c {
      RepEachUniformAt(p, c, k);
      DivBelow(k, c, n - 1);
    } else {
      ModOfBlock(n - 1, c, k - (n - 1) * c);
    }
  }

  lemma {:induction false} RepEachUniformLength(es: seq<Elem>, c: nat)
    ensures |RepEachSeq(es, Uniform(|es|, c))| == |es| * c
    decreases |es|
  {
    var n := |es|;
    if n > 0 {
      assert Uniform(n, c)[..n - 1] == Uniform(n - 1, c);
      RepEachUniformLength(es[..n - 1], c);
      assert n * c == (n - 1) * c + c;
    }
  }

  predicate AllNonNegative(counts: seq<int>)
  {
    forall i :: 0 <= i < |counts| ==> counts[i] >= 0
  }

  function ToNats(counts: seq<int>): (cs: seq<nat>)
    requires AllNonNegative(counts)
    ensures |cs| == |counts| && forall i :: 0 <= i < |cs| ==> cs[i] == counts[i]
  {
    seq(|counts|, i requires 0 <= i < |counts| => counts[i] as nat)
  }

  /**
   * repEach(): with a single count every element is repeated that many
   * times; with one count per element each is repeated its own count of
   * times; a negative count raises, and any other number of counts raises.
   */
  method RepEach(x: Value, counts: seq<int>) returns (r: Result<Value>)
    ensures |counts| == 1 ==> (r.Err? <==> counts[0] < 0)
    ensures |counts| != 1 && |counts| == x.Count() ==> (r.Err? <==> !AllNonNegative(counts))
    ensures |counts| != 1 && |counts| != x.Count() ==> r == Err(CountSizeMismatch)
    ensures r.Err? && |counts| != 1 && |counts| == x.Count() ==> r.error == NegativeCount
    ensures r.Ok? && |counts| == 1 ==> r.value == WithElems(x, RepEachSeq(x.Elems(), Uniform(x.Count(), counts[0])))
    ensures r.Ok? && |counts| != 1 ==> AllNonNegative(counts) && r.value == WithElems(x, RepEachSeq(x.Elems(), ToNats(counts)))
  {
    var es := x.Elems();
    var cs: seq<nat>;
    if |counts| == 1 {
      if counts[0] < 0 {
        return Err(NegativeCount);
      }
      cs := Uniform(|es|, counts[0]);
    } else if |counts| == |es| {
      var ok := CountsNonNegative(counts);
      if !ok {
        return Err(NegativeCount);
      }
      cs := ToNats(counts);
    } else {
      return Err(CountSizeMismatch);
    }
    var out := RepeatEach(es, cs);
    if x.Null? {
      assert out == [];
    }
    r := Ok(WithElems(x, out));
  }

  /** The check of repEach()'s count vector, stopping at the first negative count. */
  method CountsNonNegative(counts: seq<int>) returns (ok: bool)
    ensures ok == AllNonNegative(counts)
  {
    var i := 0;
    while i < |counts|
      invariant 0 <= i <= |counts|
      invariant AllNonNegative(counts[..i])
    {
      if counts[i] < 0 {
        assert counts[i] == counts[..i + 1][i];
        return false;
      }
      assert counts[..i + 1] == counts[..i] + [counts[i]];
      i := i + 1;
    }
    assert counts[..i] == counts;
    return true;
  }

  /** The copy loop of repEach(): es[i], cs[i] times, for each i in turn. */
  method RepeatEach(es: seq<Elem>, cs: seq<nat>) returns (out: seq<Elem>)
    requires |cs| == |es|
    ensures out == RepEachSeq(es, cs)
  {
    out := [];
    var i := 0;
    while i < |es|
      invariant 0 <= i <= |es|
      invariant out == RepEachSeq(es[..i], cs[..i])
    {
      var j := 0;
      while j < cs[i]
        invariant 0 <= j <= cs[i]
        invariant out == RepEachSeq(es[..i], cs[..i]) + Replicate(es[i], j)
      {
        out := out + [es[i]];
        j := j + 1;
      }
      assert es[..i + 1][..i] == es[..i] && cs[..i + 1][..i] == cs[..i];
      i := i + 1;
    }
    assert es[..i] == es && cs[..i] == cs;
  }

  // ---------------------------------------------------------------- identical()

  /** identical(): same type, same count, and every pair of elements equal (NAN is never equal). */
  predicate Identical(x: Value, y: Value)
  {
    && x.Type() == y.Type()
    && x.Count() == y.Count()
    && forall i :: 0 <= i < x.Count() ==> ElemEq(x.Elems()[i], y.Elems()[i])
  }

  /** The element-by-element scan of identical(), which stops at the first difference. */
  method IdenticalValues(x: Value, y: Value) returns (r: bool)
    ensures r == Identical(x, y)
  {
    if x.Type() != y.Type() || x.Count() != y.Count() {
      return false;
    }
    var es, fs := x.Elems(), y.Elems();
    var i := 0;
    while i < |es|
      invariant 0 <= i <= |es|
      invariant forall k :: 0 <= k < i ==> ElemEq(es[k], fs[k])
    {
      if !ElemEq(es[i], fs[i]) {
        return false;
      }
      i := i + 1;
    }
    r := true;
  }

  /** identical() is equality of values, except that NAN is not identical to itself and NULL visibility is ignored. */
  lemma IdenticalIsEquality(x: Value, y: Value)
    requires WellFormed(x) && x.Vector? && forall i :: 0 <= i < |x.elems| ==> !IsNaN(x.elems[i])
    ensures Identical(x, y) <==> x == y
  {
    if Identical(x, y) {
      assert y.Vector?;
      forall i | 0 <= i < |x.elems| ensures x.elems[i] == y.elems[i] {
        assert ElemEq(x.Elems()[i], y.Elems()[i]);
      }
      assert x.elems == y.elems;
    }
  }

  /** identical() is symmetric. */
  lemma IdenticalSymmetric(x: Value, y: Value)
    requires Identical(x, y)
    ensures Identical(y, x)
  {
    forall i | 0 <= i < y.Count() ensures ElemEq(y.Elems()[i], x.Elems()[i]) {
      assert ElemEq(x.Elems()[i], y.Elems()[i]);
    }
  }

  // ---------------------------------------------------------------- ifelse()

  /**
   * ifelse(): test, trueValues and falseValues must have one length (else
   * raise), then the two value arguments one type (else raise); element i of
   * the result comes from trueValues where test[i] is T and from
   * falseValues otherwise.
   */
  method IfElse(test: seq<bool>, t: Value, f: Value) returns (r: Result<Value>)
    ensures |test| != t.Count() || |test| != f.Count() ==> r == Err(LengthMismatch)
    ensures |test| == t.Count() == f.Count() && t.Type() != f.Type() ==> r == Err(TypeMismatch)
    ensures r.Ok? <==> |test| == t.Count() == f.Count() && t.Type() == f.Type()
    ensures r.Ok? ==> r.value.Type() == t.Type() && r.value.Count() == |test|
    ensures r.Ok? ==> forall i :: 0 <= i < |test| ==> r.value.Elems()[i] == if test[i] then t.Elems()[i] else f.Elems()[i]
  {
    if |test| != t.Count() || |test| != f.Count() {
      return Err(LengthMismatch);
    }
    if t.Type() != f.Type() {
      return Err(TypeMismatch);
    }
    var out: seq<Elem> := [];
    var i := 0;
    while i < |test|
      invariant 0 <= i <= |test| && |out| == i
      invariant forall k :: 0 <= k < i ==> out[k] == if test[k] then t.Elems()[k] else f.Elems()[k]
    {
      out := out + [if test[i] then t.Elems()[i] else f.Elems()[i]];
      i := i + 1;
    }
    r := Ok(WithElems(t, out));
  }
}

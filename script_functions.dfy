/**
 * The earlier SLiMScript interpreter (core/script_functions.cpp), where it
 * differs from the Eidos builtins or matters on its own: concatenation with
 * NULL always allowed, rep() and repEach() without the negative-count
 * checks, integer sum() and product() that raise on overflow instead of
 * falling back to float, all()/any(), unique() without shortcuts, and the
 * class/instance flag checks of its dispatcher. Its integer seq() is the
 * same algorithm as the Eidos one (EidosVectors.SeqInt).
 */
module ScriptFunctions {
  import opened EidosValue
  import EidosConcat
  import EidosArith
  import EidosVectors
  import EidosSearch

  // ---------------------------------------------------------------- concatenation

  /**
   * ConcatenateScriptValues: the Eidos first pass and copy with NULL
   * allowed; object classes compare by their element-type names.
   */
  method ConcatenateScriptValues(args: seq<Value>, fmt: Double -> string) returns (r: Result<Value>)
    requires AllWellFormed(args)
    ensures r == EidosConcat.Concatenate(args, true, fmt)
  {
    r := EidosConcat.ConcatenateEidosValues(args, true, fmt);
  }

  /** Where c() of the Eidos engine refuses NULL, the old concatenation returns NULL, invisible iff every argument was. */
  lemma ScriptConcatOfNulls(args: seq<Value>, fmt: Double -> string)
    requires |args| > 0 && forall i :: 0 <= i < |args| ==> args[i].Null?
    ensures AllWellFormed(args)
    ensures EidosConcat.Concatenate(args, true, fmt) == Ok(Null(forall i :: 0 <= i < |args| ==> args[i].invisible))
    ensures EidosConcat.Concatenate(args, false, fmt) == Err(NullNotAllowed)
  {
    EidosConcat.ConcatOfNulls(args, true, fmt);
    EidosConcat.ConcatOfNulls(args, false, fmt);
  }

  // ---------------------------------------------------------------- rep(), repEach()

  /**
   * Execute_rep: x repeated count times when count is a singleton (a count
   * below 1 gives nothing), and an empty value of x's type for any other
   * size of count.
   */
  method ExecuteRep(x: Value, counts: seq<int>) returns (r: Value)
    ensures r.Type() == x.Type()
    ensures r.Elems() == if |counts| == 1 && counts[0] > 0 then EidosVectors.Repeat(x.Elems(), counts[0]) else []
  {
    var es := x.Elems();
    var n := if |counts| == 1 && counts[0] > 0 then counts[0] else 0;
    var out: seq<Elem> := [];
    var i := 0;
    while i < n
      invariant 0 <= i <= n
      invariant out == EidosVectors.Repeat(es, i)
    {
      var j := 0;
      while j < |es|
        invariant 0 <= j <= |es|
        invariant out == EidosVectors.Repeat(es, i) + es[..j]
      {
        out := out + [es[j]];
        j := j + 1;
      }
      assert es[..j] == es;
      i := i + 1;
    }
    EidosVectors.RepeatLength(es, n);
    if x.Null? {
      assert |out| == n * 0;
    }
    r := WithElems(x, out);
  }

  /** A count as the loop uses it: a negative count repeats nothing. */
  function Clamp(c: int): nat { if c < 0 then 0 else c }

  function ClampAll(counts: seq<int>): (cs: seq<nat>)
    ensures |cs| == |counts| && forall i :: 0 <= i < |cs| ==> cs[i] == Clamp(counts[i])
  {
    seq(|counts|, i requires 0 <= i < |counts| => Clamp(counts[i]))
  }

  /**
   * Execute_repEach: with a singleton count each element is repeated that
   * many times, with one count per element each its own number of times
   * (negative counts repeat nothing), and any other size raises.
   */
  method ExecuteRepEach(x: Value, counts: seq<int>) returns (r: Result<Value>)
    ensures r.Ok? <==> |counts| == 1 || |counts| == x.Count()
    ensures |counts| != 1 && |counts| != x.Count() <==> r == Err(CountSizeMismatch)
    ensures r.Ok? ==> r.value.Type() == x.Type()
    ensures r.Ok? ==> r.value.Elems() == EidosVectors.RepEachSeq(x.Elems(),
      if |counts| == 1 then EidosVectors.Uniform(x.Count(), Clamp(counts[0])) else ClampAll(counts))
  {
    var es := x.Elems();
    var cs: seq<nat>;
    if |counts| == 1 {
      cs := EidosVectors.Uniform(|es|, Clamp(counts[0]));
    } else if |counts| == |es| {
      cs := ClampAll(counts);
    } else {
      return Err(CountSizeMismatch);
    }
    var out: seq<Elem> := [];
    var i := 0;
    while i < |es|
      invariant 0 <= i <= |es|
      invariant out == EidosVectors.RepEachSeq(es[..i], cs[..i])
    {
      var j := 0;
      while j < cs[i]
        invariant 0 <= j <= cs[i]
        invariant out == EidosVectors.RepEachSeq(es[..i], cs[..i]) + EidosVectors.Replicate(es[i], j)
      {
        out := out + [es[i]];
        j := j + 1;
      }
      assert es[..i + 1][..i] == es[..i] && cs[..i + 1][..i] == cs[..i];
      i := i + 1;
    }
    assert es[..i] == es && cs[..i] == cs;
    if x.Null? {
      assert out == [];
    }
    r := Ok(WithElems(x, out));
  }

  // ---------------------------------------------------------------- sum(), product()

  /**
   * Integer sum(): before each addition the code tests whether it would
   * leave int64 and raises if so; otherwise the result is the exact sum.
   */
  method SumIntegersChecked(xs: seq<int>) returns (r: Result<int>)
    requires forall i :: 0 <= i < |xs| ==> InInt64(xs[i])
    ensures r.Ok? <==> EidosArith.PrefixSumsFit(xs)
    ensures r.Ok? ==> r.value == EidosArith.Total(xs)
    ensures r.Err? ==> r.error == IntegerOverflow
  {
    var sum := 0;
    var i := 0;
    assert xs[..0] == [];
    while i < |xs|
      invariant 0 <= i <= |xs|
      invariant sum == EidosArith.Total(xs[..i]) && InInt64(sum)
      invariant EidosArith.PrefixSumsFit(xs[..i])
    {
      var temp := xs[i];
      EidosArith.PrefixSumsFitSnoc(xs, i);
      if (temp > 0 && sum > INT64_MAX - temp) || (temp < 0 && sum < INT64_MIN - temp) {
        assert !EidosArith.PrefixSumsFit(xs) by {
          assert !InInt64(EidosArith.Total(xs[..i + 1]));
        }
        return Err(IntegerOverflow);
      }
      sum := sum + temp;
      i := i + 1;
    }
    assert xs[..i] == xs;
    r := Ok(sum);
  }

  /**
   * One step of integer product() as written: the multiplication wraps,
   * and overflow is detected by dividing the wrapped product by the factor
   * (C++ division, which traps when the factor is 0).
   */
  function ProductStepAsWritten(product: int, temp: int): Result<int>
  {
    var p := Wrap64(product * temp);
    if temp == 0 then Err(DivisionByZero)
    else if TruncDiv(p, temp) != product then Err(IntegerOverflow)
    else Ok(p)
  }

  /** product(c(5, 0)) as written divides by the factor 0, although the product 0 fits. */
  lemma ProductZeroAsWritten()
    ensures ProductStepAsWritten(1, 5) == Ok(5)
    ensures ProductStepAsWritten(5, 0) == Err(DivisionByZero)
    ensures EidosArith.PrefixProductsFit([5, 0]) && EidosArith.Prod([5, 0]) == 0
  {
    assert TruncDiv(5, 5) == 1;
    var xs := [5, 0];
    assert xs[..0] == [] && xs[..1] == [5] && xs[..2] == xs;
    assert [5][..0] == [];
    assert EidosArith.Prod([5]) == 5;
  }

  /**
   * Integer product() as evidently intended: raise exactly when some
   * partial product leaves int64, and otherwise return the exact product;
   * a factor 0 gives 0.
   */
  method ProductIntegersChecked(xs: seq<int>) returns (r: Result<int>)
    requires forall i :: 0 <= i < |xs| ==> InInt64(xs[i])
    ensures r.Ok? <==> EidosArith.PrefixProductsFit(xs)
    ensures r.Ok? ==> r.value == EidosArith.Prod(xs)
    ensures r.Err? ==> r.error == IntegerOverflow
  {
    var product := 1;
    var i := 0;
    assert xs[..0] == [];
    while i < |xs|
      invariant 0 <= i <= |xs|
      invariant product == EidosArith.Prod(xs[..i])
      invariant EidosArith.PrefixProductsFit(xs[..i])
    {
      EidosArith.PrefixProductsFitSnoc(xs, i);
      if !InInt64(product * xs[i]) {
        assert !EidosArith.PrefixProductsFit(xs) by {
          assert !InInt64(EidosArith.Prod(xs[..i + 1]));
        }
        return Err(IntegerOverflow);
      }
      product := product * xs[i];
      i := i + 1;
    }
    assert xs[..i] == xs;
    r := Ok(product);
  }

  // ---------------------------------------------------------------- all(), any()

  /** all(): F at the first F element, T otherwise (also for no elements). */
  method All(xs: seq<bool>) returns (r: bool)
    ensures r <==> forall i :: 0 <= i < |xs| ==> xs[i]
  {
    var i := 0;
    while i < |xs|
      invariant 0 <= i <= |xs|
      invariant forall k :: 0 <= k < i ==> xs[k]
    {
      if !xs[i] {
        return false;
      }
      i := i + 1;
    }
    r := true;
  }

  /** any(): T at the first T element, F otherwise (also for no elements). */
  method Any(xs: seq<bool>) returns (r: bool)
    ensures r <==> exists i :: 0 <= i < |xs| && xs[i]
  {
    var i := 0;
    while i < |xs|
      invariant 0 <= i <= |xs|
      invariant forall k :: 0 <= k < i ==> !xs[k]
    {
      if xs[i] {
        return true;
      }
      i := i + 1;
    }
    r := false;
  }

  // ---------------------------------------------------------------- unique()

  /**
   * unique() of the old engine: an empty value gives an empty value of its
   * type; every other value, logical ones included, goes through the scan
   * that keeps each element not equal to an earlier one.
   */
  method ExecuteUnique(x: Value) returns (r: Value)
    ensures r.Type() == x.Type()
    ensures r.Elems() == EidosSearch.Unique(x.Elems())
  {
    if x.Count() == 0 {
      return EmptyLike(x);
    }
    var out := EidosSearch.UniqueScan(x.Elems());
    r := WithElems(x, out);
  }

  // ---------------------------------------------------------------- dispatch

  /** A FunctionSignature of the old engine: functions and methods share it, told apart by two flags. */
  datatype ScriptSignature = ScriptSignature(name: string, isClassMethod: bool, isInstanceMethod: bool)

  /**
   * ExecuteFunctionCall of the old engine: an unknown name raises, a
   * signature flagged as a class or instance method raises an internal
   * error, then the arguments are checked, the function runs and its
   * result is checked.
   */
  method ScriptExecuteFunctionCall(
    functionMap: map<string, ScriptSignature>, name: string, args: seq<Value>,
    argumentsOk: (ScriptSignature, seq<Value>) -> bool,
    run: (ScriptSignature, seq<Value>) -> Result<Value>, returnOk: (ScriptSignature, Value) -> bool)
    returns (r: Result<Value>)
    ensures name !in functionMap ==> r == Err(UnrecognizedFunction(name))
    ensures name in functionMap ==>
      var sig := functionMap[name];
      && (sig.isClassMethod || sig.isInstanceMethod ==> r == Err(Internal))
      && (!sig.isClassMethod && !sig.isInstanceMethod && !argumentsOk(sig, args) ==> r == Err(ArgumentError))
      && (!sig.isClassMethod && !sig.isInstanceMethod && argumentsOk(sig, args) ==>
            r == if run(sig, args).Err? || returnOk(sig, run(sig, args).value) then run(sig, args) else Err(ReturnError))
      && (r.Ok? ==> !sig.isClassMethod && !sig.isInstanceMethod && argumentsOk(sig, args)
                    && r == run(sig, args) && returnOk(sig, r.value))
  {
    if name !in functionMap {
      return Err(UnrecognizedFunction(name));
    }
    var sig := functionMap[name];
    if sig.isClassMethod || sig.isInstanceMethod {
      return Err(Internal);
    }
    if !argumentsOk(sig, args) {
      return Err(ArgumentError);
    }
    var result := run(sig, args);
    if result.Err? {
      return result;
    }
    if !returnOk(sig, result.value) {
      return Err(ReturnError);
    }
    r := result;
  }

  /** Which implementation an old-engine method call reaches. */
  datatype ScriptTarget = ClassMethodOfElements | InstanceMethodOfElements

  /**
   * ExecuteMethodCall of the old engine, given the signature the receiver
   * reports for the method: it must carry exactly one of the two flags
   * (else an internal error), then the arguments are checked and the class
   * or instance implementation runs, and its result is checked.
   */
  method ScriptExecuteMethodCall(
    sig: ScriptSignature, args: seq<Value>,
    argumentsOk: (ScriptSignature, seq<Value>) -> bool,
    run: (ScriptTarget, seq<Value>) -> Result<Value>, returnOk: (ScriptSignature, Value) -> bool)
    returns (r: Result<Value>)
    ensures sig.isClassMethod == sig.isInstanceMethod ==> r == Err(Internal)
    ensures sig.isClassMethod != sig.isInstanceMethod && !argumentsOk(sig, args) ==> r == Err(ArgumentError)
    ensures sig.isClassMethod != sig.isInstanceMethod && argumentsOk(sig, args) ==>
      var result := run(if sig.isClassMethod then ClassMethodOfElements else InstanceMethodOfElements, args);
      r == if result.Err? || returnOk(sig, result.value) then result else Err(ReturnError)
    ensures r.Ok? ==>
      && sig.isClassMethod != sig.isInstanceMethod && argumentsOk(sig, args) && returnOk(sig, r.value)
      && r == run(if sig.isClassMethod then ClassMethodOfElements else InstanceMethodOfElements, args)
  {
    if !sig.isClassMethod && !sig.isInstanceMethod {
      return Err(Internal);
    }
    if sig.isClassMethod && sig.isInstanceMethod {
      return Err(Internal);
    }
    if !argumentsOk(sig, args) {
      return Err(ArgumentError);
    }
    var target := if sig.isClassMethod then ClassMethodOfElements else InstanceMethodOfElements;
    var result := run(target, args);
    if result.Err? {
      return result;
    }
    if !returnOk(sig, result.value) {
      return Err(ReturnError);
    }
    r := result;
  }
}

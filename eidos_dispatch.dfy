/**
 * Call dispatch of the Eidos interpreter: the built-in function map, the
 * lookup and checks around every function call (ExecuteFunctionCall), and
 * method calls on object values (ExecuteMethodCall). Argument and return
 * checking against a signature (CheckArguments, CheckReturn) and the bodies
 * of functions and methods are not part of this model: they are parameters.
 */
module EidosDispatch {
  import opened EidosValue

  /** EidosFunctionIdentifier, reduced to what dispatch distinguishes. */
  datatype FunctionId = NoFunction | DelegatedFunction | BuiltIn(id: nat)

  datatype FunctionSignature = FunctionSignature(name: string, id: FunctionId)

  datatype MethodSignature = MethodSignature(name: string, isClassMethod: bool)

  /** Some signature in sigs has name n. */
  predicate Named(sigs: seq<FunctionSignature>, n: string)
  {
    exists i :: 0 <= i < |sigs| && sigs[i].name == n
  }

  /** sigs[i] is the first signature with its name. */
  predicate FirstOfName(sigs: seq<FunctionSignature>, i: nat)
    requires i < |sigs|
  {
    forall j :: 0 <= j < i ==> sigs[j].name != sigs[i].name
  }

  /**
   * BuiltInFunctionMap(): every signature is inserted under its name; an
   * insert of a name already present leaves the entry alone, so each name
   * maps to its first signature.
   */
  method BuildFunctionMap(sigs: seq<FunctionSignature>) returns (m: map<string, FunctionSignature>)
    ensures forall n :: n in m <==> Named(sigs, n)
    ensures forall i :: 0 <= i < |sigs| ==> sigs[i].name in m
    ensures forall i :: 0 <= i < |sigs| && FirstOfName(sigs, i) ==> m[sigs[i].name] == sigs[i]
  {
    m := map[];
    var i := 0;
    while i < |sigs|
      invariant 0 <= i <= |sigs|
      invariant m.Keys == NamesOf(sigs[..i])
      invariant forall k :: 0 <= k < i && FirstOfName(sigs, k) ==> sigs[k].name in m && m[sigs[k].name] == sigs[k]
    {
      m := RegisterSignature(sigs, m, i);
      i := i + 1;
    }
    assert sigs[..i] == sigs;
    NamesOfNamed(sigs);
  }

  /** The names of the signatures. */
  function NamesOf(sigs: seq<FunctionSignature>): (names: set<string>)
    ensures forall k :: 0 <= k < |sigs| ==> sigs[k].name in names
  {
    set k | 0 <= k < |sigs| :: sigs[k].name
  }

  /** A name is among the names exactly when some signature has it. */
  lemma NamesOfNamed(sigs: seq<FunctionSignature>)
    ensures forall n :: n in NamesOf(sigs) <==> Named(sigs, n)
  {
    forall n | n in NamesOf(sigs) ensures Named(sigs, n) {
      var k :| 0 <= k < |sigs| && sigs[k].name == n;
    }
  }

  /** One pass of the map-building loop: signature i is entered unless its name is already taken. */
  method RegisterSignature(sigs: seq<FunctionSignature>, m: map<string, FunctionSignature>, i: nat)
    returns (m': map<string, FunctionSignature>)
    requires i < |sigs|
    requires m.Keys == NamesOf(sigs[..i])
    requires forall k :: 0 <= k < i && FirstOfName(sigs, k) ==> sigs[k].name in m && m[sigs[k].name] == sigs[k]
    ensures m'.Keys == NamesOf(sigs[..i + 1])
    ensures forall k :: 0 <= k < i + 1 && FirstOfName(sigs, k) ==> sigs[k].name in m' && m'[sigs[k].name] == sigs[k]
  {
    NamesOfSnoc(sigs, i);
    if sigs[i].name !in m {
      m' := m[sigs[i].name := sigs[i]];
    } else {
      // an earlier signature has the name, so signature i is not the first
      var k :| 0 <= k < i && sigs[..i][k].name == sigs[i].name;
      assert sigs[k].name == sigs[i].name;
      m' := m;
    }
  }

  /** The names of the first i + 1 signatures: those of the first i and signature i's. */
  lemma NamesOfSnoc(sigs: seq<FunctionSignature>, i: nat)
    requires i < |sigs|
    ensures NamesOf(sigs[..i + 1]) == NamesOf(sigs[..i]) + {sigs[i].name}
  {
    var before, after := sigs[..i], sigs[..i + 1];
    assert after[i] == sigs[i];
    forall n | n in NamesOf(after) ensures n in NamesOf(before) + {sigs[i].name} {
      var k :| 0 <= k < i + 1 && after[k].name == n;
      if k < i {
        assert before[k] == after[k];
      }
    }
    forall n | n in NamesOf(before) ensures n in NamesOf(after) {
      var k :| 0 <= k < i && before[k].name == n;
      assert after[k] == before[k];
    }
  }

  /**
   * ExecuteFunctionCall(): a cached signature is used as given; otherwise an
   * unknown name raises. The arguments are checked, kNoFunction raises an
   * internal error, the function runs, and its result is checked against
   * the signature.
   */
  method ExecuteFunctionCall(
    functionMap: map<string, FunctionSignature>, name: string, cached: Option<FunctionSignature>,
    args: seq<Value>, argumentsOk: (FunctionSignature, seq<Value>) -> bool,
    run: (FunctionSignature, seq<Value>) -> Result<Value>, returnOk: (FunctionSignature, Value) -> bool)
    returns (r: Result<Value>)
    ensures cached.None? && name !in functionMap ==> r == Err(UnrecognizedFunction(name))
    ensures cached.Some? || name in functionMap ==>
      var sig := if cached.Some? then cached.value else functionMap[name];
      && (!argumentsOk(sig, args) ==> r == Err(ArgumentError))
      && (argumentsOk(sig, args) && sig.id == NoFunction ==> r == Err(Internal))
      && (argumentsOk(sig, args) && sig.id != NoFunction ==>
            r == if run(sig, args).Err? || returnOk(sig, run(sig, args).value) then run(sig, args) else Err(ReturnError))
      && (r.Ok? ==> argumentsOk(sig, args) && sig.id != NoFunction && r == run(sig, args) && returnOk(sig, r.value))
  {
    var sig: FunctionSignature;
    if cached.Some? {
      sig := cached.value;
    } else {
      if name !in functionMap {
        return Err(UnrecognizedFunction(name));
      }
      sig := functionMap[name];
    }
    if !argumentsOk(sig, args) {
      return Err(ArgumentError);
    }
    if sig.id == NoFunction {
      return Err(Internal);
    }
    var result := run(sig, args);
    if result.Err? {
      return result;
    }
    if !returnOk(sig, result.value) {
      return Err(ReturnError);
    }
    r := result;
  }

  /** Which implementation a method call reaches. */
  datatype Target = ClassMethod | InstanceMethod

  /**
   * ExecuteMethodCall(): a method the receiver's class does not define
   * raises; otherwise the arguments are checked, a class method runs once
   * on the class and an instance method on the elements, and the result is
   * checked against the signature.
   */
  method ExecuteMethodCall(
    methods: map<string, MethodSignature>, name: string, args: seq<Value>,
    argumentsOk: (MethodSignature, seq<Value>) -> bool,
    run: (Target, seq<Value>) -> Result<Value>, returnOk: (MethodSignature, Value) -> bool)
    returns (r: Result<Value>)
    ensures name !in methods ==> r == Err(MethodNotDefined(name))
    ensures name in methods ==>
      var sig := methods[name];
      var target := if sig.isClassMethod then ClassMethod else InstanceMethod;
      && (!argumentsOk(sig, args) ==> r == Err(ArgumentError))
      && (argumentsOk(sig, args) ==>
            r == if run(target, args).Err? || returnOk(sig, run(target, args).value) then run(target, args) else Err(ReturnError))
      && (r.Ok? ==> argumentsOk(sig, args) && r == run(target, args) && returnOk(sig, r.value))
  {
    if name !in methods {
      return Err(MethodNotDefined(name));
    }
    var sig := methods[name];
    if !argumentsOk(sig, args) {
      return Err(ArgumentError);
    }
    var target := if sig.isClassMethod then ClassMethod else InstanceMethod;
    var result := run(target, args);
    if result.Err? {
      return result;
    }
    if !returnOk(sig, result.value) {
      return Err(ReturnError);
    }
    r := result;
  }
}

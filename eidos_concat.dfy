/**
 * ConcatenateEidosValues: the engine behind c() and every builtin that
 * splices its arguments into one vector. A first pass over the arguments
 * finds the highest type and rejects NULLs (when not allowed) and objects of
 * two classes; a second pass copies the elements, in argument order, through
 * the accessor of the result type.
 */
module EidosConcat {
  import opened EidosValue

  /** The flags the first pass keeps: highest_type, has_object_type, has_nonobject_type, all_invisible, element_class. */
  datatype Scan = Scan(highest: ValueType, hasObject: bool, hasNonObject: bool, allInvisible: bool, elementClass: Option<string>)

  const ScanStart: Scan := Scan(NullT, false, false, true, None)

  predicate NonEmptyObject(v: Value)
  {
    v.Vector? && v.vt == ObjectT && |v.elems| > 0 && v.elems[0].ObjectE?
  }

  function ClassOf(v: Value): string
    requires NonEmptyObject(v)
  {
    v.elems[0].o.cls
  }

  /** Every NULL argument is allowed. */
  predicate NullsAllowed(args: seq<Value>, allowNull: bool)
  {
    allowNull || forall i :: 0 <= i < |args| ==> !args[i].Null?
  }

  /** No two non-empty object arguments have different classes. */
  predicate ClassesAgree(args: seq<Value>)
  {
    forall i, j :: 0 <= i < |args| && 0 <= j < |args| && NonEmptyObject(args[i]) && NonEmptyObject(args[j]) ==>
      ClassOf(args[i]) == ClassOf(args[j])
  }

  /** One iteration of the first pass. */
  function ScanStep(s: Scan, arg: Value, allowNull: bool): Result<Scan>
    requires WellFormed(arg)
  {
    if !allowNull && arg.Null? then Err(NullNotAllowed)
    else
      var highest := if Rank(arg.Type()) > Rank(s.highest) then arg.Type() else s.highest;
      var invisible := s.allInvisible && arg.Null? && arg.invisible;
      if arg.Type() != ObjectT then Ok(Scan(highest, s.hasObject, true, invisible, s.elementClass))
      else if arg.Count() == 0 then Ok(Scan(highest, true, s.hasNonObject, invisible, s.elementClass))
      else if s.elementClass.Some? && s.elementClass.value != ClassOf(arg) then Err(ObjectClassMismatch)
      else Ok(Scan(highest, true, s.hasNonObject, invisible, Some(ClassOf(arg))))
  }

  /** The first pass over all arguments. */
  function ScanArgs(args: seq<Value>, allowNull: bool): Result<Scan>
    requires AllWellFormed(args)
    decreases |args|
  {
    if |args| == 0 then Ok(ScanStart)
    else
      var prefix := args[..|args| - 1];
      assert forall i :: 0 <= i < |prefix| ==> prefix[i] == args[i];
      match ScanArgs(prefix, allowNull)
      case Err(e) => Err(e)
      case Ok(s) => ScanStep(s, args[|args| - 1], allowNull)
  }

  lemma ClassesAgreeSnoc(args: seq<Value>)
    requires |args| > 0
    ensures ClassesAgree(args) <==>
      ClassesAgree(args[..|args| - 1]) &&
      (NonEmptyObject(args[|args| - 1]) ==>
        forall i :: 0 <= i < |args| - 1 && NonEmptyObject(args[i]) ==> ClassOf(args[i]) == ClassOf(args[|args| - 1]))
  {
    var prefix := args[..|args| - 1];
    assert forall i :: 0 <= i < |prefix| ==> prefix[i] == args[i];
  }

  /**
   * The first pass raises exactly when a NULL is not allowed or two non-empty
   * object arguments disagree on their class; element_class is then the
   * class of every non-empty object argument.
   */
  lemma {:induction false} ScanSucceeds(args: seq<Value>, allowNull: bool)
    requires AllWellFormed(args)
    ensures ScanArgs(args, allowNull).Ok? <==> NullsAllowed(args, allowNull) && ClassesAgree(args)
    ensures ScanArgs(args, allowNull).Ok? ==>
      (ScanArgs(args, allowNull).value.elementClass.Some? <==> exists i :: 0 <= i < |args| && NonEmptyObject(args[i]))
    ensures ScanArgs(args, allowNull).Ok? ==>
      forall i :: 0 <= i < |args| && NonEmptyObject(args[i]) ==> ScanArgs(args, allowNull).value.elementClass == Some(ClassOf(args[i]))
    decreases |args|
  {
    if |args| > 0 {
      var n := |args|;
      var prefix := args[..n - 1];
      var last := args[n - 1];
      assert forall i :: 0 <= i < |prefix| ==> prefix[i] == args[i];
      ScanSucceeds(prefix, allowNull);
      ClassesAgreeSnoc(args);
      if ScanArgs(prefix, allowNull).Ok? {
        var s := ScanArgs(prefix, allowNull).value;
        assert ScanArgs(args, allowNull) == ScanStep(s, last, allowNull);
        if NonEmptyObject(last) && s.elementClass.Some? && s.elementClass.value != ClassOf(last) {
          var w :| 0 <= w < |prefix| && NonEmptyObject(prefix[w]);
          assert !ClassesAgree(args);
        }
      }
    }
  }

  /** The highest type of a successful first pass bounds every argument's type and is one of them. */
  lemma {:induction false} ScanHighest(args: seq<Value>, allowNull: bool)
    requires AllWellFormed(args) && ScanArgs(args, allowNull).Ok?
    ensures forall i :: 0 <= i < |args| ==> Rank(args[i].Type()) <= Rank(ScanArgs(args, allowNull).value.highest)
    ensures ScanArgs(args, allowNull).value.highest == NullT ||
      exists i :: 0 <= i < |args| && args[i].Type() == ScanArgs(args, allowNull).value.highest
    decreases |args|
  {
    if |args| > 0 {
      var n := |args|;
      var prefix := args[..n - 1];
      assert forall i :: 0 <= i < |prefix| ==> prefix[i] == args[i];
      ScanHighest(prefix, allowNull);
      var s := ScanArgs(prefix, allowNull).value;
      var t := ScanArgs(args, allowNull).value;
      assert ScanStep(s, args[n - 1], allowNull) == Ok(t);
      if t.highest != NullT && t.highest != args[n - 1].Type() {
        var w :| 0 <= w < |prefix| && prefix[w].Type() == s.highest;
        assert args[w].Type() == t.highest;
      }
    }
  }

  /** The object, non-object and invisible-NULL flags of a successful first pass. */
  lemma {:induction false} ScanKinds(args: seq<Value>, allowNull: bool)
    requires AllWellFormed(args) && ScanArgs(args, allowNull).Ok?
    ensures ScanArgs(args, allowNull).value.hasObject <==> exists i :: 0 <= i < |args| && args[i].Type() == ObjectT
    ensures ScanArgs(args, allowNull).value.hasNonObject <==> exists i :: 0 <= i < |args| && args[i].Type() != ObjectT
    ensures ScanArgs(args, allowNull).value.allInvisible <==> forall i :: 0 <= i < |args| ==> args[i].Null? && args[i].invisible
    decreases |args|
  {
    if |args| > 0 {
      var n := |args|;
      var prefix := args[..n - 1];
      assert forall i :: 0 <= i < |prefix| ==> prefix[i] == args[i];
      ScanKinds(prefix, allowNull);
      var s := ScanArgs(prefix, allowNull).value;
      var t := ScanArgs(args, allowNull).value;
      var last := args[n - 1];
      assert ScanStep(s, last, allowNull) == Ok(t);
      assert t.hasObject == (s.hasObject || last.Type() == ObjectT);
      assert t.hasNonObject == (s.hasNonObject || last.Type() != ObjectT);
      assert t.allInvisible == (s.allInvisible && last.Null? && last.invisible);
    }
  }

  /** What the flags of a successful first pass say about the arguments. */
  lemma ScanFlags(args: seq<Value>, allowNull: bool)
    requires AllWellFormed(args) && ScanArgs(args, allowNull).Ok?
    ensures forall i :: 0 <= i < |args| ==> Rank(args[i].Type()) <= Rank(ScanArgs(args, allowNull).value.highest)
    ensures ScanArgs(args, allowNull).value.highest == NullT ||
      exists i :: 0 <= i < |args| && args[i].Type() == ScanArgs(args, allowNull).value.highest
    ensures ScanArgs(args, allowNull).value.hasObject <==> exists i :: 0 <= i < |args| && args[i].Type() == ObjectT
    ensures ScanArgs(args, allowNull).value.hasNonObject <==> exists i :: 0 <= i < |args| && args[i].Type() != ObjectT
    ensures ScanArgs(args, allowNull).value.allInvisible <==> forall i :: 0 <= i < |args| ==> args[i].Null? && args[i].invisible
  {
    ScanHighest(args, allowNull);
    ScanKinds(args, allowNull);
  }

  /** An error in the first pass over a prefix is the error of the whole first pass. */
  lemma {:induction false} ScanErrorSticks(args: seq<Value>, k: nat, allowNull: bool)
    requires AllWellFormed(args) && k <= |args|
    requires ScanArgs(args[..k], allowNull).Err?
    ensures ScanArgs(args, allowNull) == ScanArgs(args[..k], allowNull)
    decreases |args|
  {
    if k < |args| {
      var prefix := args[..|args| - 1];
      assert prefix[..k] == args[..k];
      ScanErrorSticks(prefix, k, allowNull);
    } else {
      assert args[..k] == args;
    }
  }

  /** The elements of all arguments, in order. */
  function Flatten(args: seq<Value>): seq<Elem>
    decreases |args|
  {
    if |args| == 0 then [] else Flatten(args[..|args| - 1]) + args[|args| - 1].Elems()
  }

  /** The sum of the argument counts. */
  function TotalCount(args: seq<Value>): nat
    decreases |args|
  {
    if |args| == 0 then 0 else args[0].Count() + TotalCount(args[1..])
  }

  lemma {:induction false} FlattenLength(args: seq<Value>)
    ensures |Flatten(args)| == TotalCount(args)
    decreases |args|
  {
    if |args| > 0 {
      var n := |args|;
      FlattenLength(args[..n - 1]);
      FlattenLength(args[1..]);
      if n > 1 {
        FlattenLength(args[1..][..n - 2]);
        assert args[1..][..n - 2] == args[..n - 1][1..];
        FlattenLength(args[..n - 1][1..]);
        assert args[1..][n - 2] == args[n - 1];
      } else {
        assert args[1..] == [];
      }
      TotalCountSnoc(args);
    }
  }

  lemma {:induction false} TotalCountSnoc(args: seq<Value>)
    requires |args| > 0
    ensures TotalCount(args) == TotalCount(args[..|args| - 1]) + args[|args| - 1].Count()
    decreases |args|
  {
    var n := |args|;
    if n > 1 {
      TotalCountSnoc(args[1..]);
      assert args[1..][..n - 2] == args[..n - 1][1..];
      assert args[..n - 1][0] == args[0];
    } else {
      assert args[..n - 1] == [];
    }
  }

  lemma FlattenSnoc(args: seq<Value>, i: nat)
    requires i < |args|
    ensures Flatten(args[..i + 1]) == Flatten(args[..i]) + args[i].Elems()
  {
    assert args[..i + 1][..i] == args[..i];
  }

  /** Element j of argument i sits at offset |Flatten(args[..i])| + j of the flattened sequence. */
  lemma {:induction false} FlattenAt(args: seq<Value>, i: nat, j: nat)
    requires i < |args| && j < args[i].Count()
    ensures |Flatten(args[..i])| + j < |Flatten(args)|
    ensures Flatten(args)[|Flatten(args[..i])| + j] == args[i].Elems()[j]
    decreases |args|
  {
    var n := |args|;
    var prefix := args[..n - 1];
    var front, last := Flatten(prefix), args[n - 1].Elems();
    assert Flatten(args) == front + last;
    if i == n - 1 {
      assert args[..i] == prefix;
      assert (front + last)[|front| + j] == last[j];
    } else {
      assert prefix[..i] == args[..i] && prefix[i] == args[i];
      FlattenAt(prefix, i, j);
      var k := |Flatten(args[..i])| + j;
      assert (front + last)[k] == front[k];
    }
  }

  /** A property of every argument element is a property of every flattened element. */
  lemma {:induction false} FlattenKeeps(args: seq<Value>, P: Elem -> bool)
    requires forall i, j :: 0 <= i < |args| && 0 <= j < args[i].Count() ==> P(args[i].Elems()[j])
    ensures forall k :: 0 <= k < |Flatten(args)| ==> P(Flatten(args)[k])
    decreases |args|
  {
    if |args| > 0 {
      var n := |args|;
      var prefix := args[..n - 1];
      assert forall i :: 0 <= i < |prefix| ==> prefix[i] == args[i];
      FlattenKeeps(prefix, P);
      forall k | 0 <= k < |Flatten(args)| ensures P(Flatten(args)[k]) {
        if k >= |Flatten(prefix)| {
          var j := k - |Flatten(prefix)|;
          assert Flatten(args)[k] == args[n - 1].Elems()[j];
        }
      }
    }
  }

  predicate ElemsBelow(es: seq<Elem>, t: ValueType)
  {
    t != ObjectT && forall k :: 0 <= k < |es| ==> !es[k].ObjectE? && Rank(ElemType(es[k])) <= Rank(t)
  }

  lemma FlattenBelow(args: seq<Value>, t: ValueType)
    requires AllWellFormed(args) && t != ObjectT
    requires forall i :: 0 <= i < |args| ==> Rank(args[i].Type()) <= Rank(t)
    ensures ElemsBelow(Flatten(args), t)
  {
    var P := (e: Elem) => !e.ObjectE? && Rank(ElemType(e)) <= Rank(t);
    forall i, j | 0 <= i < |args| && 0 <= j < args[i].Count() ensures P(args[i].Elems()[j]) {
      assert WellFormed(args[i]);
      assert ElemType(args[i].elems[j]) == args[i].vt;
    }
    FlattenKeeps(args, P);
  }

  function PromoteAll(es: seq<Elem>, t: ValueType, fmt: Double -> string): (r: seq<Elem>)
    requires ElemsBelow(es, t)
    ensures |r| == |es|
  {
    seq(|es|, k requires 0 <= k < |es| => Promote(es[k], t, fmt))
  }

  /** What ConcatenateEidosValues returns or raises. */
  function Concatenate(args: seq<Value>, allowNull: bool, fmt: Double -> string): Result<Value>
    requires AllWellFormed(args)
  {
    match ScanArgs(args, allowNull)
    case Err(e) => Err(e)
    case Ok(s) =>
      if s.hasObject && s.hasNonObject then Err(ObjectNonObjectMix)
      else if s.highest == NullT then Ok(Null(s.allInvisible))
      else if s.highest == ObjectT then Ok(Vector(ObjectT, Flatten(args)))
      else
        ScanFlags(args, allowNull);
        FlattenBelow(args, s.highest);
        Ok(Vector(s.highest, PromoteAll(Flatten(args), s.highest, fmt)))
  }

  /** ConcatenateEidosValues: the first pass, then the copy of the elements through the result type's accessor. */
  method ConcatenateEidosValues(args: seq<Value>, allowNull: bool, fmt: Double -> string) returns (r: Result<Value>)
    requires AllWellFormed(args)
    ensures r == Concatenate(args, allowNull, fmt)
  {
    var scan := FirstPass(args, allowNull);
    if scan.Err? {
      return Err(scan.error);
    }
    var s := scan.value;
    if s.hasObject && s.hasNonObject {
      return Err(ObjectNonObjectMix);
    }
    if s.highest == NullT {
      return Ok(Null(s.allInvisible));
    }
    if s.highest == ObjectT {
      var out := CopyElements(args);
      return Ok(Vector(ObjectT, out));
    }
    ScanFlags(args, allowNull);
    var out := CopyPromoted(args, s.highest, fmt);
    r := Ok(Vector(s.highest, out));
  }

  /** The first loop of ConcatenateEidosValues, which raises at the first offending argument. */
  method FirstPass(args: seq<Value>, allowNull: bool) returns (r: Result<Scan>)
    requires AllWellFormed(args)
    ensures r == ScanArgs(args, allowNull)
  {
    var highest, hasObject, hasNonObject, allInvisible, elementClass := NullT, false, false, true, None;
    var i := 0;
    while i < |args|
      invariant 0 <= i <= |args|
      invariant ScanArgs(args[..i], allowNull) == Ok(Scan(highest, hasObject, hasNonObject, allInvisible, elementClass))
    {
      var arg := args[i];
      assert args[..i + 1][..i] == args[..i] && args[..i + 1][i] == arg;
      if !allowNull && arg.Null? {
        ScanErrorSticks(args, i + 1, allowNull);
        return Err(NullNotAllowed);
      }
      if Rank(arg.Type()) > Rank(highest) {
        highest := arg.Type();
      }
      if !(arg.Null? && arg.invisible) {
        allInvisible := false;
      }
      if arg.Type() == ObjectT {
        if arg.Count() > 0 {
          var cls := ClassOf(arg);
          if elementClass.None? {
            elementClass := Some(cls);
          } else if elementClass.value != cls {
            ScanErrorSticks(args, i + 1, allowNull);
            return Err(ObjectClassMismatch);
          }
        }
        hasObject := true;
      } else {
        hasNonObject := true;
      }
      i := i + 1;
    }
    assert args[..|args|] == args;
    r := Ok(Scan(highest, hasObject, hasNonObject, allInvisible, elementClass));
  }

  /** The object branch of the second pass: every element of every argument, in order. */
  method CopyElements(args: seq<Value>) returns (out: seq<Elem>)
    ensures out == Flatten(args)
  {
    out := [];
    var i := 0;
    while i < |args|
      invariant 0 <= i <= |args|
      invariant out == Flatten(args[..i])
    {
      var es := args[i].Elems();
      var j := 0;
      while j < |es|
        invariant 0 <= j <= |es|
        invariant out == Flatten(args[..i]) + es[..j]
      {
        out := out + [es[j]];
        j := j + 1;
      }
      assert es[..j] == es;
      FlattenSnoc(args, i);
      i := i + 1;
    }
    assert args[..i] == args;
  }

  /** The logical, integer, float and string branches of the second pass. */
  method CopyPromoted(args: seq<Value>, t: ValueType, fmt: Double -> string) returns (out: seq<Elem>)
    requires AllWellFormed(args) && t != ObjectT
    requires forall i :: 0 <= i < |args| ==> Rank(args[i].Type()) <= Rank(t)
    ensures ElemsBelow(Flatten(args), t)
    ensures out == PromoteAll(Flatten(args), t, fmt)
  {
    FlattenBelow(args[..0], t);
    out := [];
    var i := 0;
    while i < |args|
      invariant 0 <= i <= |args|
      invariant ElemsBelow(Flatten(args[..i]), t)
      invariant out == PromoteAll(Flatten(args[..i]), t, fmt)
    {
      CopyStep(args, i, t, fmt);
      var promoted := PromoteEach(args[i].Elems(), t, fmt);
      out := out + promoted;
      i := i + 1;
    }
    assert args[..i] == args;
  }

  /** One argument more: its promoted elements follow those of the arguments before it. */
  lemma CopyStep(args: seq<Value>, i: nat, t: ValueType, fmt: Double -> string)
    requires AllWellFormed(args) && t != ObjectT && i < |args|
    requires forall k :: 0 <= k < |args| ==> Rank(args[k].Type()) <= Rank(t)
    ensures ElemsBelow(Flatten(args[..i]), t) && ElemsBelow(args[i].Elems(), t) && ElemsBelow(Flatten(args[..i + 1]), t)
    ensures PromoteAll(Flatten(args[..i + 1]), t, fmt) == PromoteAll(Flatten(args[..i]), t, fmt) + PromoteAll(args[i].Elems(), t, fmt)
  {
    FlattenSnoc(args, i);
    FlattenBelow(args[..i], t);
    FlattenBelow([args[i]], t);
    assert Flatten([args[i]]) == args[i].Elems();
    PromoteAllAppend(Flatten(args[..i]), args[i].Elems(), t, fmt);
  }

  /** The copy loop of one argument: each element promoted to t, in order. */
  method PromoteEach(es: seq<Elem>, t: ValueType, fmt: Double -> string) returns (out: seq<Elem>)
    requires ElemsBelow(es, t)
    ensures out == PromoteAll(es, t, fmt)
  {
    out := [];
    var j := 0;
    while j < |es|
      invariant 0 <= j <= |es|
      invariant |out| == j
      invariant forall k :: 0 <= k < j ==> out[k] == Promote(es[k], t, fmt)
    {
      out := out + [Promote(es[j], t, fmt)];
      j := j + 1;
    }
  }

  lemma PromoteAllAppend(xs: seq<Elem>, ys: seq<Elem>, t: ValueType, fmt: Double -> string)
    requires ElemsBelow(xs, t) && ElemsBelow(ys, t)
    ensures ElemsBelow(xs + ys, t)
    ensures PromoteAll(xs + ys, t, fmt) == PromoteAll(xs, t, fmt) + PromoteAll(ys, t, fmt)
  {
    assert forall k :: 0 <= k < |xs + ys| ==> (xs + ys)[k] == if k < |xs| then xs[k] else ys[k - |xs|];
  }

  lemma {:induction false} FlattenPrefixLength(args: seq<Value>, i: nat)
    requires i <= |args|
    ensures |Flatten(args[..i])| <= |Flatten(args)|
    decreases |args|
  {
    if i < |args| {
      var prefix := args[..|args| - 1];
      assert prefix[..i] == args[..i];
      FlattenPrefixLength(prefix, i);
    } else {
      assert args[..i] == args;
    }
  }

  predicate SomeObject(args: seq<Value>) { exists i :: 0 <= i < |args| && args[i].Type() == ObjectT }
  predicate SomeNonObject(args: seq<Value>) { exists i :: 0 <= i < |args| && args[i].Type() != ObjectT }

  /**
   * Concatenation raises exactly when a NULL is not allowed, when two
   * non-empty object arguments have different classes (empty object vectors
   * never conflict), or when object and non-object arguments are mixed.
   */
  lemma ConcatRaises(args: seq<Value>, allowNull: bool, fmt: Double -> string)
    requires AllWellFormed(args)
    ensures Concatenate(args, allowNull, fmt).Err? <==>
      !NullsAllowed(args, allowNull) || !ClassesAgree(args) || (SomeObject(args) && SomeNonObject(args))
  {
    ScanSucceeds(args, allowNull);
    if ScanArgs(args, allowNull).Ok? {
      ScanFlags(args, allowNull);
    }
  }

  /** The result type is the highest argument type in the order NULL < logical < integer < float < string < object. */
  lemma ConcatType(args: seq<Value>, allowNull: bool, fmt: Double -> string)
    requires AllWellFormed(args) && Concatenate(args, allowNull, fmt).Ok?
    ensures forall i :: 0 <= i < |args| ==> Rank(args[i].Type()) <= Rank(Concatenate(args, allowNull, fmt).value.Type())
    ensures Concatenate(args, allowNull, fmt).value.Type() == NullT ||
      exists i :: 0 <= i < |args| && args[i].Type() == Concatenate(args, allowNull, fmt).value.Type()
  {
    ScanFlags(args, allowNull);
  }

  /** The result count is the sum of the argument counts. */
  lemma ConcatCount(args: seq<Value>, allowNull: bool, fmt: Double -> string)
    requires AllWellFormed(args) && Concatenate(args, allowNull, fmt).Ok?
    ensures Concatenate(args, allowNull, fmt).value.Count() == TotalCount(args)
  {
    FlattenLength(args);
    var s := ScanArgs(args, allowNull).value;
    if s.highest == NullT {
      ScanFlags(args, allowNull);
      assert forall i :: 0 <= i < |args| ==> args[i].Null?;
      NullsFlattenEmpty(args);
    }
  }

  lemma {:induction false} NullsFlattenEmpty(args: seq<Value>)
    requires forall i :: 0 <= i < |args| ==> args[i].Count() == 0
    ensures Flatten(args) == []
    decreases |args|
  {
    if |args| > 0 {
      var prefix := args[..|args| - 1];
      assert forall i :: 0 <= i < |prefix| ==> prefix[i] == args[i];
      NullsFlattenEmpty(prefix);
    }
  }

  /**
   * Order is preserved: element j of argument i is found, read through the
   * result type's accessor, at position (elements of arguments before i) + j.
   */
  lemma ConcatOrder(args: seq<Value>, allowNull: bool, fmt: Double -> string, i: nat, j: nat)
    requires AllWellFormed(args) && Concatenate(args, allowNull, fmt).Ok?
    requires i < |args| && j < args[i].Count()
    ensures var v := Concatenate(args, allowNull, fmt).value;
      var e := args[i].Elems()[j];
      var k := |Flatten(args[..i])| + j;
      && v.Vector? && k < |v.elems|
      && (v.vt == ObjectT ==> v.elems[k] == e)
      && (v.vt != ObjectT ==> !e.ObjectE? && Rank(ElemType(e)) <= Rank(v.vt) && v.elems[k] == Promote(e, v.vt, fmt))
  {
    var s := ScanArgs(args, allowNull).value;
    ScanHighest(args, allowNull);
    FlattenAt(args, i, j);
    var e := args[i].Elems()[j];
    var k := |Flatten(args[..i])| + j;
    assert Rank(args[i].Type()) <= Rank(s.highest);
    assert args[i].elems[j] == e && ElemType(e) == args[i].vt;
    ConcatShape(args, allowNull, fmt);
    if s.highest != ObjectT {
      PromoteAllAt(Flatten(args), s.highest, fmt, k);
    }
  }

  /** A successful concatenation with a non-NULL argument is a vector of the highest type: the elements themselves for objects, else the promoted elements. */
  lemma ConcatShape(args: seq<Value>, allowNull: bool, fmt: Double -> string)
    requires AllWellFormed(args) && Concatenate(args, allowNull, fmt).Ok?
    requires ScanArgs(args, allowNull).value.highest != NullT
    ensures var v := Concatenate(args, allowNull, fmt).value;
      var t := ScanArgs(args, allowNull).value.highest;
      && v.Vector? && v.vt == t
      && (t == ObjectT ==> v.elems == Flatten(args))
      && (t != ObjectT ==> ElemsBelow(Flatten(args), t) && v.elems == PromoteAll(Flatten(args), t, fmt))
  {
    var t := ScanArgs(args, allowNull).value.highest;
    if t != ObjectT {
      ScanHighest(args, allowNull);
      FlattenBelow(args, t);
    }
  }

  /** The k-th promoted element is the k-th element, promoted. */
  lemma PromoteAllAt(es: seq<Elem>, t: ValueType, fmt: Double -> string, k: nat)
    requires ElemsBelow(es, t) && k < |es|
    ensures PromoteAll(es, t, fmt)[k] == Promote(es[k], t, fmt)
  {
  }

  /** Arguments that are all NULL give NULL, invisible exactly when every argument is invisible; the first NULL raises when NULL is not allowed. */
  lemma ConcatOfNulls(args: seq<Value>, allowNull: bool, fmt: Double -> string)
    requires forall i :: 0 <= i < |args| ==> args[i].Null?
    ensures AllWellFormed(args)
    ensures Concatenate(args, allowNull, fmt) ==
      if allowNull || |args| == 0 then Ok(Null(forall i :: 0 <= i < |args| ==> args[i].invisible))
      else Err(NullNotAllowed)
  {
    ScanSucceeds(args, allowNull);
    if allowNull || |args| == 0 {
      ScanFlags(args, allowNull);
    } else {
      assert args[..1][..0] == [];
      ScanErrorSticks(args, 1, allowNull);
    }
  }

  /** A NULL result only comes from all-NULL arguments. */
  lemma ConcatNullOnlyFromNulls(args: seq<Value>, allowNull: bool, fmt: Double -> string)
    requires AllWellFormed(args) && Concatenate(args, allowNull, fmt).Ok?
    ensures Concatenate(args, allowNull, fmt).value.Null? <==> forall i :: 0 <= i < |args| ==> args[i].Null?
  {
    ScanFlags(args, allowNull);
  }

  /** Object arguments whose non-empty members share one class concatenate to all their elements. */
  lemma ConcatObjects(args: seq<Value>, fmt: Double -> string)
    requires AllWellFormed(args) && |args| > 0
    requires forall i :: 0 <= i < |args| ==> args[i].Type() == ObjectT
    requires ClassesAgree(args)
    ensures Concatenate(args, false, fmt) == Ok(Vector(ObjectT, Flatten(args)))
  {
    ScanSucceeds(args, false);
    ScanFlags(args, false);
  }

  /** The result is a well-formed value. */
  lemma ConcatWellFormed(args: seq<Value>, allowNull: bool, fmt: Double -> string)
    requires AllWellFormed(args) && Concatenate(args, allowNull, fmt).Ok?
    ensures WellFormed(Concatenate(args, allowNull, fmt).value)
  {
    ScanSucceeds(args, allowNull);
    ScanFlags(args, allowNull);
    var s := ScanArgs(args, allowNull).value;
    if s.highest == ObjectT {
      ObjectsWellFormed(args, s);
    } else if s.highest != NullT {
      PromotedWellFormed(args, s.highest, fmt);
    }
  }

  lemma ObjectsWellFormed(args: seq<Value>, s: Scan)
    requires AllWellFormed(args)
    requires forall i :: 0 <= i < |args| ==> args[i].Type() == ObjectT
    requires forall i :: 0 <= i < |args| && NonEmptyObject(args[i]) ==> s.elementClass == Some(ClassOf(args[i]))
    ensures WellFormed(Vector(ObjectT, Flatten(args)))
  {
    var out := Flatten(args);
    if |out| > 0 {
      var u := SomeNonEmpty(args);
      ObjectArgElems(args[u], "");
      var c := s.elementClass.value;
      var P := (e: Elem) => e.ObjectE? && e.o.cls == c;
      forall i, j | 0 <= i < |args| && 0 <= j < args[i].Count() ensures P(args[i].Elems()[j]) {
        ObjectArgElems(args[i], c);
      }
      FlattenKeeps(args, P);
      forall k | 0 <= k < |out| ensures out[k].ObjectE? && out[k].o.cls == c {
        assert P(out[k]);
      }
      OneClassWellFormed(out, c);
    }
  }

  /** The elements of a well-formed object argument are objects of its class. */
  lemma ObjectArgElems(a: Value, c: string)
    requires WellFormed(a) && a.Type() == ObjectT
    ensures a.Count() > 0 ==> NonEmptyObject(a)
    ensures NonEmptyObject(a) && ClassOf(a) == c ==> forall j :: 0 <= j < a.Count() ==> a.Elems()[j].ObjectE? && a.Elems()[j].o.cls == c
  {
    if a.Count() > 0 {
      assert ElemType(a.elems[0]) == ObjectT;
      forall j | 0 <= j < a.Count() ensures a.Elems()[j].ObjectE? {
        assert ElemType(a.elems[j]) == ObjectT;
      }
    }
  }

  lemma OneClassWellFormed(es: seq<Elem>, c: string)
    requires forall k :: 0 <= k < |es| ==> es[k].ObjectE? && es[k].o.cls == c
    ensures WellFormed(Vector(ObjectT, es))
  {
  }

  lemma {:induction false} SomeNonEmpty(args: seq<Value>) returns (u: nat)
    requires |Flatten(args)| > 0
    ensures u < |args| && args[u].Count() > 0
  {
    if forall i :: 0 <= i < |args| ==> args[i].Count() == 0 {
      NullsFlattenEmpty(args);
    }
    u :| 0 <= u < |args| && args[u].Count() > 0;
  }

  lemma PromotedWellFormed(args: seq<Value>, t: ValueType, fmt: Double -> string)
    requires AllWellFormed(args) && t != ObjectT && t != NullT
    requires forall i :: 0 <= i < |args| ==> Rank(args[i].Type()) <= Rank(t)
    ensures ElemsBelow(Flatten(args), t)
    ensures WellFormed(Vector(t, PromoteAll(Flatten(args), t, fmt)))
  {
    var P := (e: Elem) => e.IntE? ==> InInt64(e.i);
    forall i, j | 0 <= i < |args| && 0 <= j < args[i].Count() ensures P(args[i].Elems()[j]) {
      assert WellFormed(args[i]);
    }
    FlattenKeeps(args, P);
    FlattenBelow(args, t);
    var all := Flatten(args);
    var out := PromoteAll(all, t, fmt);
    forall k | 0 <= k < |out| ensures ElemType(out[k]) == t && !out[k].ObjectE? && (out[k].IntE? ==> InInt64(out[k].i)) {
      assert P(all[k]);
      PromoteAllAt(all, t, fmt, k);
      PromoteInRange(all[k], t, fmt);
    }
    assert WellFormed(Vector(t, out));
  }

  /** Promotion turns no element into an integer outside the 64-bit range. */
  lemma PromoteInRange(e: Elem, t: ValueType, fmt: Double -> string)
    requires !e.ObjectE? && t != ObjectT && Rank(ElemType(e)) <= Rank(t)
    requires e.IntE? ==> InInt64(e.i)
    ensures Promote(e, t, fmt).IntE? ==> InInt64(Promote(e, t, fmt).i)
  {
  }
}

/**
 * The searching builtins of eidos_functions.cpp: match(), unique() and
 * which(). Elements compare with the C++ == of their type, so NAN matches
 * nothing (not even itself) and objects match by identity.
 */
module EidosSearch {
  import opened EidosValue

  // ---------------------------------------------------------------- match()

  /** The index of the first element of t equal to e, or -1 when there is none. */
  function FirstIndex(e: Elem, t: seq<Elem>): (r: int)
    ensures -1 <= r < |t|
    ensures r >= 0 ==> ElemEq(e, t[r]) && forall j :: 0 <= j < r ==> !ElemEq(e, t[j])
    ensures r == -1 <==> forall j :: 0 <= j < |t| ==> !ElemEq(e, t[j])
    decreases |t|
  {
    if |t| == 0 then -1
    else if ElemEq(e, t[0]) then 0
    else
      var k := FirstIndex(e, t[1..]);
      if k < 0 then -1 else k + 1
  }

  /** The scan of the table for one value, as every branch of match() performs it. */
  method ScanTable(e: Elem, t: seq<Elem>) returns (index: int)
    ensures index == FirstIndex(e, t)
  {
    index := 0;
    while index < |t|
      invariant 0 <= index <= |t|
      invariant forall j :: 0 <= j < index ==> !ElemEq(e, t[j])
    {
      if ElemEq(e, t[index]) {
        return;
      }
      index := index + 1;
    }
    index := -1;
  }

  /** An integer value holding, for each element of x, its first position in table, or -1. */
  predicate IsMatchOf(r: Value, x: seq<Elem>, table: seq<Elem>)
  {
    && r.Type() == IntT
    && r.Count() == |x|
    && forall i :: 0 <= i < |x| ==> r.Elems()[i] == IntE(FirstIndex(x[i], table))
  }

  /**
   * match(): x and table must have one type (else raise); two NULLs give an
   * empty integer vector; otherwise, through the singleton/singleton, the
   * singleton/vector, the vector/singleton and the vector/vector branches
   * alike, element i of the result is the first position of x[i] in table,
   * or -1.
   */
  method Match(x: Value, table: Value) returns (r: Result<Value>)
    ensures r.Ok? <==> x.Type() == table.Type()
    ensures x.Type() != table.Type() <==> r == Err(TypeMismatch)
    ensures r.Ok? ==> IsMatchOf(r.value, x.Elems(), table.Elems())
  {
    if x.Type() != table.Type() {
      return Err(TypeMismatch);
    }
    if x.Null? {
      return Ok(Vector(IntT, []));
    }
    var xs, ts := x.Elems(), table.Elems();
    if |xs| == 1 && |ts| == 1 {
      var k := if ElemEq(xs[0], ts[0]) then 0 else -1;
      assert k == FirstIndex(xs[0], ts);
      r := Ok(Vector(IntT, [IntE(k)]));
    } else if |xs| == 1 {
      var k := ScanTable(xs[0], ts);
      r := Ok(Vector(IntT, [IntE(k)]));
    } else if |ts| == 1 {
      var out := MatchAgainstOne(xs, ts);
      r := Ok(Vector(IntT, out));
    } else {
      var out := MatchAgainstTable(xs, ts);
      r := Ok(Vector(IntT, out));
    }
  }

  /** The vector/singleton branch of match(): each element is compared with the one table element. */
  method MatchAgainstOne(xs: seq<Elem>, ts: seq<Elem>) returns (out: seq<Elem>)
    requires |ts| == 1
    ensures |out| == |xs|
    ensures forall k :: 0 <= k < |xs| ==> out[k] == IntE(FirstIndex(xs[k], ts))
  {
    out := [];
    var i := 0;
    while i < |xs|
      invariant 0 <= i <= |xs| && |out| == i
      invariant forall k :: 0 <= k < i ==> out[k] == IntE(FirstIndex(xs[k], ts))
    {
      out := out + [IntE(if ElemEq(xs[i], ts[0]) then 0 else -1)];
      i := i + 1;
    }
  }

  /** The vector/vector branch of match(): each element is looked up by a scan of the table. */
  method MatchAgainstTable(xs: seq<Elem>, ts: seq<Elem>) returns (out: seq<Elem>)
    ensures |out| == |xs|
    ensures forall k :: 0 <= k < |xs| ==> out[k] == IntE(FirstIndex(xs[k], ts))
  {
    out := [];
    var i := 0;
    while i < |xs|
      invariant 0 <= i <= |xs| && |out| == i
      invariant forall k :: 0 <= k < i ==> out[k] == IntE(FirstIndex(xs[k], ts))
    {
      var k := ScanTable(xs[i], ts);
      out := out + [IntE(k)];
      i := i + 1;
    }
  }

  /** Every element of a table other than NAN is found in it, at or before its own position. */
  lemma MatchFindsMembers(t: seq<Elem>, j: nat)
    requires j < |t| && !IsNaN(t[j])
    ensures 0 <= FirstIndex(t[j], t) <= j && t[FirstIndex(t[j], t)] == t[j]
  {
  }

  // ---------------------------------------------------------------- unique()

  /** Some element of es equals e. */
  predicate Occurs(e: Elem, es: seq<Elem>)
  {
    exists j :: 0 <= j < |es| && ElemEq(e, es[j])
  }

  /** The elements of es without repeats, each at its first occurrence, in order. */
  function Unique(es: seq<Elem>): seq<Elem>
    decreases |es|
  {
    if |es| == 0 then []
    else
      var p := es[..|es| - 1];
      if Occurs(es[|es| - 1], p) then Unique(p) else Unique(p) + [es[|es| - 1]]
  }

  /** No two elements of es are equal. */
  predicate Distinct(es: seq<Elem>)
  {
    forall i, j :: 0 <= i < j < |es| ==> !ElemEq(es[i], es[j])
  }

  /** unique() keeps exactly the elements of its argument. */
  lemma {:induction false} UniqueSameElements(es: seq<Elem>)
    ensures forall e :: e in Unique(es) <==> e in es
    ensures |Unique(es)| <= |es|
    decreases |es|
  {
    if |es| > 0 {
      var p := es[..|es| - 1];
      UniqueSameElements(p);
      assert es == p + [es[|es| - 1]];
    }
  }

  /** unique() leaves no two equal elements. */
  lemma {:induction false} UniqueDistinct(es: seq<Elem>)
    ensures Distinct(Unique(es))
    decreases |es|
  {
    if |es| > 0 {
      var p := es[..|es| - 1];
      var last := es[|es| - 1];
      UniqueDistinct(p);
      UniqueSameElements(p);
      if !Occurs(last, p) {
        var u := Unique(p);
        forall i | 0 <= i < |u| ensures !ElemEq(u[i], last) {
          assert u[i] in u;
          assert u[i] in p;
          var k :| 0 <= k < |p| && p[k] == u[i];
          assert !ElemEq(last, p[k]);
        }
      }
    }
  }

  /** A vector without repeats is its own unique(). */
  lemma {:induction false} UniqueOfDistinct(es: seq<Elem>)
    requires Distinct(es)
    ensures Unique(es) == es
    decreases |es|
  {
    if |es| > 0 {
      var p := es[..|es| - 1];
      var last := es[|es| - 1];
      assert Distinct(p);
      UniqueOfDistinct(p);
      forall k | 0 <= k < |p| ensures !ElemEq(last, p[k]) {
        assert !ElemEq(es[k], es[|es| - 1]);
      }
      assert es == p + [last];
    }
  }

  /** unique() is idempotent. */
  lemma UniqueIdempotent(es: seq<Elem>)
    ensures Unique(Unique(es)) == Unique(es)
  {
    UniqueDistinct(es);
    UniqueOfDistinct(Unique(es));
  }

  /**
   * For a logical vector, unique() is its first element, followed by the
   * other truth value when that occurs too: the shortcut the logical
   * branch of unique() takes.
   */
  lemma {:induction false} UniqueOfLogical(es: seq<Elem>)
    requires |es| > 0 && forall i :: 0 <= i < |es| ==> es[i].LogicalE?
    ensures Unique(es) == if exists i :: 0 <= i < |es| && es[i] != es[0] then [es[0], LogicalE(!es[0].b)] else [es[0]]
    decreases |es|
  {
    var n := |es|;
    var p := es[..n - 1];
    var last := es[n - 1];
    if n == 1 {
      assert Unique(p) == [];
    } else {
      UniqueOfLogical(p);
      assert p[0] == es[0];
      if last == es[0] {
        assert ElemEq(last, p[0]);
        assert (exists i :: 0 <= i < n && es[i] != es[0]) == (exists i :: 0 <= i < n - 1 && p[i] != p[0]);
      } else if exists i :: 0 <= i < n - 1 && p[i] != p[0] {
        var i :| 0 <= i < n - 1 && p[i] != p[0];
        assert ElemEq(last, p[i]);
      } else {
        assert !Occurs(last, p);
        assert es[n - 1] != es[0];
      }
    }
  }

  /**
   * unique(): an empty value gives an empty value of its type, a singleton
   * a copy of itself, a logical vector the shortcut through the two flags
   * containsF and containsT, and any other vector the first occurrence of
   * each element found by scanning the elements before it.
   */
  method UniqueValue(x: Value) returns (r: Value)
    ensures r.Type() == x.Type()
    ensures r.Elems() == Unique(x.Elems())
  {
    var es := x.Elems();
    if |es| == 0 {
      return EmptyLike(x);
    }
    if |es| == 1 {
      assert Unique(es) == Unique([]) + [es[0]];
      return x;
    }
    if x.vt == LogicalT && forall i :: 0 <= i < |es| ==> es[i].LogicalE? {
      var containsF, containsT := false, false;
      var i := 0;
      while i < |es|
        invariant 0 <= i <= |es|
        invariant containsT <==> exists k :: 0 <= k < i && es[k] == LogicalE(true)
        invariant containsF <==> exists k :: 0 <= k < i && es[k] == LogicalE(false)
      {
        if es[i].b {
          containsT := true;
        } else {
          containsF := true;
        }
        i := i + 1;
      }
      UniqueOfLogical(es);
      if containsF && !containsT {
        r := Vector(LogicalT, [LogicalE(false)]);
      } else if containsT && !containsF {
        r := Vector(LogicalT, [LogicalE(true)]);
      } else if es[0].b {
        r := Vector(LogicalT, [LogicalE(true), LogicalE(false)]);
      } else {
        r := Vector(LogicalT, [LogicalE(false), LogicalE(true)]);
      }
      return;
    }
    var out := UniqueScan(es);
    r := WithElems(x, out);
  }

  /** The scan of unique(): an element is kept when no element before it is equal to it. */
  method UniqueScan(es: seq<Elem>) returns (out: seq<Elem>)
    ensures out == Unique(es)
  {
    out := [];
    var i := 0;
    while i < |es|
      invariant 0 <= i <= |es|
      invariant out == Unique(es[..i])
    {
      var scan := 0;
      while scan < i
        invariant 0 <= scan <= i
        invariant forall j :: 0 <= j < scan ==> !ElemEq(es[i], es[j])
      {
        if ElemEq(es[i], es[scan]) {
          break;
        }
        scan := scan + 1;
      }
      assert es[..i + 1][..i] == es[..i];
      if scan == i {
        out := out + [es[i]];
      }
      i := i + 1;
    }
    assert es[..i] == es;
  }

  // ---------------------------------------------------------------- which()

  /**
   * which(): the positions of the T elements, in increasing order; a
   * position is in the result exactly when x is T there.
   */
  method Which(x: seq<bool>) returns (r: seq<int>)
    ensures forall i, j :: 0 <= i < j < |r| ==> r[i] < r[j]
    ensures forall k :: 0 <= k < |r| ==> 0 <= r[k] < |x| && x[r[k]]
    ensures forall p :: 0 <= p < |x| && x[p] ==> p in r
  {
    r := [];
    var i := 0;
    while i < |x|
      invariant 0 <= i <= |x|
      invariant forall a, b :: 0 <= a < b < |r| ==> r[a] < r[b]
      invariant forall k :: 0 <= k < |r| ==> 0 <= r[k] < i && x[r[k]]
      invariant forall p :: 0 <= p < i && x[p] ==> p in r
    {
      if x[i] {
        r := r + [i];
      }
      i := i + 1;
    }
  }
}

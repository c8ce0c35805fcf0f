/**
 * max(), min(), range(), whichMax() and whichMin() of eidos_functions.cpp.
 * Each scans from the second element, replacing its running extreme only on
 * a strict comparison, so ties keep the earliest element; an empty argument
 * gives NULL. The scans are stated as left folds, and what they compute on
 * elements that operator< totally orders is proved separately.
 */
module EidosExtrema {
  import opened EidosValue

  /** The running maximum of max(): replaced only by a strictly greater element. */
  function MaxFold(es: seq<Elem>): Elem
    requires |es| > 0
    decreases |es|
  {
    if |es| == 1 then es[0]
    else
      var m := MaxFold(es[..|es| - 1]);
      if ElemLess(m, es[|es| - 1]) then es[|es| - 1] else m
  }

  /** The running minimum of min(): replaced only by a strictly smaller element. */
  function MinFold(es: seq<Elem>): Elem
    requires |es| > 0
    decreases |es|
  {
    if |es| == 1 then es[0]
    else
      var m := MinFold(es[..|es| - 1]);
      if ElemLess(es[|es| - 1], m) then es[|es| - 1] else m
  }

  /** The running index of whichMax(). */
  function WhichMaxFold(es: seq<Elem>): nat
    requires |es| > 0
    decreases |es|
  {
    if |es| == 1 then 0
    else
      var k := WhichMaxFold(es[..|es| - 1]);
      if k < |es| - 1 && ElemLess(es[k], es[|es| - 1]) then |es| - 1 else k
  }

  /** The running index of whichMin(). */
  function WhichMinFold(es: seq<Elem>): nat
    requires |es| > 0
    decreases |es|
  {
    if |es| == 1 then 0
    else
      var k := WhichMinFold(es[..|es| - 1]);
      if k < |es| - 1 && ElemLess(es[|es| - 1], es[k]) then |es| - 1 else k
  }

  /** The running (min, max) pair of range(): an element that raises the maximum is not compared with the minimum. */
  function RangeFold(es: seq<Elem>): (Elem, Elem)
    requires |es| > 0
    decreases |es|
  {
    if |es| == 1 then (es[0], es[0])
    else
      var (mn, mx) := RangeFold(es[..|es| - 1]);
      var t := es[|es| - 1];
      if ElemLess(mx, t) then (mn, t)
      else if ElemLess(t, mn) then (t, mx)
      else (mn, mx)
  }

  lemma ComparablePrefix(es: seq<Elem>, n: nat)
    requires Comparable(es) && 0 < n <= |es|
    ensures Comparable(es[..n])
  {
  }

  lemma ComparableTriple(es: seq<Elem>, i: nat, j: nat, k: nat)
    requires Comparable(es) && i < |es| && j < |es| && k < |es|
    ensures Comparable([es[i], es[j], es[k]])
  {
    var t := [es[i], es[j], es[k]];
    assert t[0] == es[i] && t[1] == es[j] && t[2] == es[k];
  }

  /** On totally ordered elements, max() returns an element that no element exceeds. */
  lemma {:induction false} MaxFoldIsMaximum(es: seq<Elem>)
    requires |es| > 0 && Comparable(es)
    ensures MaxFold(es) in es
    ensures forall i :: 0 <= i < |es| ==> !ElemLess(MaxFold(es), es[i])
    decreases |es|
  {
    ComparableTriple(es, 0, 0, 0);
    ElemLessOrder(es[0], es[0], es[0]);
    if |es| > 1 {
      var n := |es|;
      var p := es[..n - 1];
      ComparablePrefix(es, n - 1);
      MaxFoldIsMaximum(p);
      var m := MaxFold(p);
      var j :| 0 <= j < |p| && p[j] == m;
      forall i | 0 <= i < n ensures !ElemLess(MaxFold(es), es[i]) {
        ComparableTriple(es, i, j, n - 1);
        ElemLessOrder(es[i], m, es[n - 1]);
        ElemLessOrder(m, es[n - 1], es[i]);
        if i < n - 1 {
          assert p[i] == es[i];
        }
      }
    }
  }

  /** On totally ordered elements, min() returns an element that exceeds no element. */
  lemma {:induction false} MinFoldIsMinimum(es: seq<Elem>)
    requires |es| > 0 && Comparable(es)
    ensures MinFold(es) in es
    ensures forall i :: 0 <= i < |es| ==> !ElemLess(es[i], MinFold(es))
    decreases |es|
  {
    ComparableTriple(es, 0, 0, 0);
    ElemLessOrder(es[0], es[0], es[0]);
    if |es| > 1 {
      var n := |es|;
      var p := es[..n - 1];
      ComparablePrefix(es, n - 1);
      MinFoldIsMinimum(p);
      var m := MinFold(p);
      var last := es[n - 1];
      if ElemLess(last, m) {
        // the last element is the new minimum: anything below it would be below m
        var j :| 0 <= j < |p| && p[j] == m;
        forall i | 0 <= i < n ensures !ElemLess(es[i], last) {
          ComparableTriple(es, i, n - 1, j);
          ElemLessOrder(es[i], last, m);
          if i < n - 1 {
            assert p[i] == es[i];
          }
        }
      } else {
        forall i | 0 <= i < n - 1 ensures !ElemLess(es[i], m) {
          assert p[i] == es[i];
        }
      }
    }
  }

  /** whichMax() indexes the element max() returns, whatever the elements. */
  lemma {:induction false} WhichMaxAgrees(es: seq<Elem>)
    requires |es| > 0
    ensures WhichMaxFold(es) < |es| && es[WhichMaxFold(es)] == MaxFold(es)
    decreases |es|
  {
    if |es| > 1 {
      var p := es[..|es| - 1];
      WhichMaxAgrees(p);
      assert es[WhichMaxFold(p)] == p[WhichMaxFold(p)];
    }
  }

  /** whichMin() indexes the element min() returns, whatever the elements. */
  lemma {:induction false} WhichMinAgrees(es: seq<Elem>)
    requires |es| > 0
    ensures WhichMinFold(es) < |es| && es[WhichMinFold(es)] == MinFold(es)
    decreases |es|
  {
    if |es| > 1 {
      var p := es[..|es| - 1];
      WhichMinAgrees(p);
      assert es[WhichMinFold(p)] == p[WhichMinFold(p)];
    }
  }

  /** On totally ordered elements, whichMax() is the first index of a maximum: every earlier element is strictly smaller. */
  lemma {:induction false} WhichMaxIsFirst(es: seq<Elem>)
    requires |es| > 0 && Comparable(es)
    ensures WhichMaxFold(es) < |es|
    ensures forall i :: 0 <= i < |es| ==> !ElemLess(es[WhichMaxFold(es)], es[i])
    ensures forall i :: 0 <= i < WhichMaxFold(es) ==> ElemLess(es[i], es[WhichMaxFold(es)])
    decreases |es|
  {
    WhichMaxAgrees(es);
    MaxFoldIsMaximum(es);
    if |es| > 1 {
      var n := |es|;
      var p := es[..n - 1];
      ComparablePrefix(es, n - 1);
      WhichMaxIsFirst(p);
      var k := WhichMaxFold(p);
      forall i | 0 <= i < WhichMaxFold(es) ensures ElemLess(es[i], es[WhichMaxFold(es)]) {
        assert p[i] == es[i] && p[k] == es[k];
        ComparableTriple(es, i, k, n - 1);
        ElemLessOrder(es[i], es[k], es[n - 1]);
      }
    }
  }

  /** On totally ordered elements, whichMin() is the first index of a minimum. */
  lemma {:induction false} WhichMinIsFirst(es: seq<Elem>)
    requires |es| > 0 && Comparable(es)
    ensures WhichMinFold(es) < |es|
    ensures forall i :: 0 <= i < |es| ==> !ElemLess(es[i], es[WhichMinFold(es)])
    ensures forall i :: 0 <= i < WhichMinFold(es) ==> ElemLess(es[WhichMinFold(es)], es[i])
    decreases |es|
  {
    WhichMinAgrees(es);
    MinFoldIsMinimum(es);
    if |es| > 1 {
      var n := |es|;
      var p := es[..n - 1];
      ComparablePrefix(es, n - 1);
      WhichMinIsFirst(p);
      var k := WhichMinFold(p);
      var w := WhichMinFold(es);
      if w == k {
        forall i | 0 <= i < w ensures ElemLess(es[w], es[i]) {
          assert p[i] == es[i] && p[k] == es[k];
        }
      } else {
        // a new minimum at the end: below es[k], which no earlier element is below
        forall i | 0 <= i < w ensures ElemLess(es[w], es[i]) {
          assert p[i] == es[i] && p[k] == es[k];
          ComparableTriple(es, n - 1, k, i);
          ElemLessOrder(es[n - 1], es[k], es[i]);
          ComparableTriple(es, k, i, n - 1);
          ElemLessOrder(es[k], es[i], es[n - 1]);
        }
      }
    }
  }

  /** On totally ordered elements, range() is (min(), max()): skipping the minimum test after a new maximum loses nothing. */
  lemma {:induction false} RangeIsMinMax(es: seq<Elem>)
    requires |es| > 0 && Comparable(es)
    ensures RangeFold(es) == (MinFold(es), MaxFold(es))
    decreases |es|
  {
    if |es| > 1 {
      var n := |es|;
      var p := es[..n - 1];
      ComparablePrefix(es, n - 1);
      RangeIsMinMax(p);
      MinFoldIsMinimum(p);
      MaxFoldIsMaximum(p);
      var mn, mx := MinFold(p), MaxFold(p);
      var a :| 0 <= a < |p| && p[a] == mn;
      var b :| 0 <= b < |p| && p[b] == mx;
      assert !ElemLess(mx, mn);
      ComparableTriple(es, b, n - 1, a);
      ElemLessOrder(mx, es[n - 1], mn);
    }
  }

  /** max(): NULL for no elements, else the running maximum. */
  method Max(x: Value) returns (r: Value)
    requires WellFormed(x) && x.Type() in {LogicalT, IntT, FloatT, StringT}
    ensures x.Count() == 0 ==> r == Null(false)
    ensures x.Count() > 0 ==> r == Vector(x.vt, [MaxFold(x.elems)])
  {
    if x.Count() == 0 {
      return Null(false);
    }
    var es := x.elems;
    var m := es[0];
    var i := 1;
    while i < |es|
      invariant 1 <= i <= |es|
      invariant m == MaxFold(es[..i])
    {
      assert es[..i + 1][..i] == es[..i];
      if ElemLess(m, es[i]) {
        m := es[i];
      }
      i := i + 1;
    }
    assert es[..i] == es;
    r := Vector(x.vt, [m]);
  }

  /** min(): NULL for no elements, else the running minimum. */
  method Min(x: Value) returns (r: Value)
    requires WellFormed(x) && x.Type() in {LogicalT, IntT, FloatT, StringT}
    ensures x.Count() == 0 ==> r == Null(false)
    ensures x.Count() > 0 ==> r == Vector(x.vt, [MinFold(x.elems)])
  {
    if x.Count() == 0 {
      return Null(false);
    }
    var es := x.elems;
    var m := es[0];
    var i := 1;
    while i < |es|
      invariant 1 <= i <= |es|
      invariant m == MinFold(es[..i])
    {
      assert es[..i + 1][..i] == es[..i];
      if ElemLess(es[i], m) {
        m := es[i];
      }
      i := i + 1;
    }
    assert es[..i] == es;
    r := Vector(x.vt, [m]);
  }

  /** range(): NULL for no elements, else the pair (minimum, maximum) of one scan. */
  method Range(x: Value) returns (r: Value)
    requires WellFormed(x) && x.Type() in {IntT, FloatT}
    ensures x.Count() == 0 ==> r == Null(false)
    ensures x.Count() > 0 ==> r == Vector(x.vt, [RangeFold(x.elems).0, RangeFold(x.elems).1])
  {
    if x.Count() == 0 {
      return Null(false);
    }
    var es := x.elems;
    var mx := es[0];
    var mn := mx;
    var i := 1;
    while i < |es|
      invariant 1 <= i <= |es|
      invariant (mn, mx) == RangeFold(es[..i])
    {
      assert es[..i + 1][..i] == es[..i];
      var temp := es[i];
      if ElemLess(mx, temp) {
        mx := temp;
      } else if ElemLess(temp, mn) {
        mn := temp;
      }
      i := i + 1;
    }
    assert es[..i] == es;
    r := Vector(x.vt, [mn, mx]);
  }

  /** whichMax(): NULL for no elements, else the index of the first maximum. */
  method WhichMax(x: Value) returns (r: Value)
    requires WellFormed(x) && x.Type() in {LogicalT, IntT, FloatT, StringT}
    ensures x.Count() == 0 ==> r == Null(false)
    ensures x.Count() > 0 ==> r == Vector(IntT, [IntE(WhichMaxFold(x.elems))])
  {
    if x.Count() == 0 {
      return Null(false);
    }
    var es := x.elems;
    var m := es[0];
    var first := 0;
    var i := 1;
    while i < |es|
      invariant 1 <= i <= |es|
      invariant first == WhichMaxFold(es[..i]) && first < i && m == es[first]
    {
      assert es[..i + 1][..i] == es[..i];
      if ElemLess(m, es[i]) {
        m := es[i];
        first := i;
      }
      i := i + 1;
    }
    assert es[..i] == es;
    r := Vector(IntT, [IntE(first)]);
  }

  /** whichMin(): NULL for no elements, else the index of the first minimum. */
  method WhichMin(x: Value) returns (r: Value)
    requires WellFormed(x) && x.Type() in {LogicalT, IntT, FloatT, StringT}
    ensures x.Count() == 0 ==> r == Null(false)
    ensures x.Count() > 0 ==> r == Vector(IntT, [IntE(WhichMinFold(x.elems))])
  {
    if x.Count() == 0 {
      return Null(false);
    }
    var es := x.elems;
    var m := es[0];
    var first := 0;
    var i := 1;
    while i < |es|
      invariant 1 <= i <= |es|
      invariant first == WhichMinFold(es[..i]) && first < i && m == es[first]
    {
      assert es[..i + 1][..i] == es[..i];
      if ElemLess(es[i], m) {
        m := es[i];
        first := i;
      }
      i := i + 1;
    }
    assert es[..i] == es;
    r := Vector(IntT, [IntE(first)]);
  }
}

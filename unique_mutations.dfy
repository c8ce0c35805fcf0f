/**
 * The uniqueMutations property of Individual (individual.cpp): the
 * mutations of an individual's two genomes, merged run by run in position
 * order, with a mutation carried by both genomes listed once. At one
 * position the first genome's mutations come first, then those of the
 * second genome that the first does not carry at that position.
 * A mutation is a pointer into the mutation block; here it is its index
 * and position, and two entries are the same mutation when they are equal.
 */
module UniqueMutations {
  datatype Mutation = Mutation(index: int, position: int)

  /** Positions never decrease along s, as in a mutation run. */
  predicate Sorted(s: seq<Mutation>)
  {
    forall i, j :: 0 <= i < j < |s| ==> s[i].position <= s[j].position
  }

  /** No mutation occurs twice in s. */
  predicate Distinct(s: seq<Mutation>)
  {
    forall i, j :: 0 <= i < j < |s| ==> s[i] != s[j]
  }

  /** Every mutation of s is at position p or beyond. */
  predicate AtOrAfter(s: seq<Mutation>, p: int)
  {
    forall i :: 0 <= i < |s| ==> p <= s[i].position
  }

  /** The number of leading mutations of s at position p. */
  function BlockLen(s: seq<Mutation>, p: int): (n: nat)
    ensures n <= |s|
    ensures forall i :: 0 <= i < n ==> s[i].position == p
    ensures n < |s| ==> s[n].position != p
    decreases |s|
  {
    if |s| == 0 || s[0].position != p then 0 else 1 + BlockLen(s[1..], p)
  }

  /** The mutations of ys that are not in xs, in order. */
  function Without(ys: seq<Mutation>, xs: seq<Mutation>): (r: seq<Mutation>)
    decreases |ys|
  {
    if |ys| == 0 then []
    else
      var last := ys[|ys| - 1];
      Without(ys[..|ys| - 1], xs) + if last in xs then [] else [last]
  }

  /**
   * The merge of one pair of runs: the mutation at the lower position goes
   * first; at a shared position the block of the first run is copied, then
   * the block of the second run without the mutations already copied.
   */
  function Merge(a: seq<Mutation>, b: seq<Mutation>): seq<Mutation>
    decreases |a| + |b|
  {
    if |a| == 0 then b
    else if |b| == 0 then a
    else if a[0].position < b[0].position then [a[0]] + Merge(a[1..], b)
    else if a[0].position > b[0].position then [b[0]] + Merge(a, b[1..])
    else
      var p := a[0].position;
      var na, nb := BlockLen(a, p), BlockLen(b, p);
      a[..na] + Without(b[..nb], a[..na]) + Merge(a[na..], b[nb..])
  }

  // ------------------------------------------------------------ properties

  lemma {:induction false} WithoutElements(ys: seq<Mutation>, xs: seq<Mutation>)
    ensures forall m :: m in Without(ys, xs) <==> m in ys && m !in xs
    decreases |ys|
  {
    if |ys| > 0 {
      WithoutElements(ys[..|ys| - 1], xs);
      assert ys == ys[..|ys| - 1] + [ys[|ys| - 1]];
    }
  }

  lemma {:induction false} WithoutDistinct(ys: seq<Mutation>, xs: seq<Mutation>)
    requires Distinct(ys)
    ensures Distinct(Without(ys, xs))
    decreases |ys|
  {
    if |ys| > 0 {
      var init, last := ys[..|ys| - 1], ys[|ys| - 1];
      assert Distinct(init);
      WithoutDistinct(init, xs);
      WithoutElements(init, xs);
      assert last !in init by {
        forall k | 0 <= k < |init| ensures init[k] != last {
          assert ys[k] != ys[|ys| - 1];
        }
      }
    }
  }

  /** The merge holds exactly the mutations of the two runs. */
  lemma {:induction false} MergeElements(a: seq<Mutation>, b: seq<Mutation>)
    ensures forall m :: m in Merge(a, b) <==> m in a || m in b
    decreases |a| + |b|
  {
    if |a| > 0 && |b| > 0 {
      if a[0].position < b[0].position {
        MergeElements(a[1..], b);
        assert a == [a[0]] + a[1..];
      } else if a[0].position > b[0].position {
        MergeElements(a, b[1..]);
        assert b == [b[0]] + b[1..];
      } else {
        var p := a[0].position;
        var na, nb := BlockLen(a, p), BlockLen(b, p);
        MergeElements(a[na..], b[nb..]);
        WithoutElements(b[..nb], a[..na]);
        assert a == a[..na] + a[na..];
        assert b == b[..nb] + b[nb..];
      }
    }
  }

  lemma AtOrAfterMerge(a: seq<Mutation>, b: seq<Mutation>, p: int)
    requires AtOrAfter(a, p) && AtOrAfter(b, p)
    ensures AtOrAfter(Merge(a, b), p)
  {
    MergeElements(a, b);
    forall i | 0 <= i < |Merge(a, b)| ensures p <= Merge(a, b)[i].position {
      var m := Merge(a, b)[i];
      assert m in a || m in b;
    }
  }

  /** Merging two position-sorted runs gives a position-sorted run. */
  lemma {:induction false} MergeSorted(a: seq<Mutation>, b: seq<Mutation>)
    requires Sorted(a) && Sorted(b)
    ensures Sorted(Merge(a, b))
    decreases |a| + |b|
  {
    if |a| > 0 && |b| > 0 {
      if a[0].position < b[0].position {
        MergeSorted(a[1..], b);
        AtOrAfterMerge(a[1..], b, a[0].position);
      } else if a[0].position > b[0].position {
        MergeSorted(a, b[1..]);
        AtOrAfterMerge(a, b[1..], b[0].position);
      } else {
        var p := a[0].position;
        var na, nb := BlockLen(a, p), BlockLen(b, p);
        var block := a[..na] + Without(b[..nb], a[..na]);
        MergeSorted(a[na..], b[nb..]);
        AtOrAfterMerge(a[na..], b[nb..], p);
        WithoutElements(b[..nb], a[..na]);
        forall i | 0 <= i < |block| ensures block[i].position == p {
          if i >= na {
            assert block[i] in b[..nb];
          }
        }
      }
    }
  }

  /** A mutation below the first position of a sorted run is not in it. */
  lemma BelowRun(x: Mutation, s: seq<Mutation>)
    requires Sorted(s) && |s| > 0 && x.position < s[0].position
    ensures x !in s
  {
    forall k | 0 <= k < |s| ensures s[k] != x {
      assert s[0].position <= s[k].position;
    }
  }

  /** Two runs without repeats and without a common mutation join into one without repeats. */
  lemma AppendDistinct(u: seq<Mutation>, v: seq<Mutation>)
    requires Distinct(u) && Distinct(v)
    requires forall m :: m in u ==> m !in v
    ensures Distinct(u + v)
  {
    forall i, j | 0 <= i < j < |u + v| ensures (u + v)[i] != (u + v)[j] {
      if i < |u| && j >= |u| {
        assert (u + v)[i] in u && (u + v)[j] in v;
      }
    }
  }

  /** The tail of a sorted run without repeats has no repeats. */
  lemma TailDistinct(s: seq<Mutation>, n: nat)
    requires Distinct(s) && n <= |s|
    ensures Distinct(s[n..]) && Distinct(s[..n])
  {
    assert forall i, j :: 0 <= i < j < |s| - n ==> s[n..][i] == s[n + i] && s[n..][j] == s[n + j];
  }

  /** After the block at p, every mutation left in a sorted run lies beyond p. */
  lemma BeyondBlock(s: seq<Mutation>, p: int)
    requires Sorted(s) && |s| > 0 && s[0].position == p
    ensures forall m :: m in s[BlockLen(s, p)..] ==> m.position > p
  {
    var n := BlockLen(s, p);
    forall m | m in s[n..] ensures m.position > p {
      var k :| 0 <= k < |s| - n && s[n..][k] == m;
      assert s[0].position <= s[n + k].position;
      if n + k > n {
        assert s[n].position <= s[n + k].position;
      }
    }
  }

  /** The shared-position case of MergeDistinct, given that the rest of the merge has no repeats. */
  lemma MergeDistinctBlock(a: seq<Mutation>, b: seq<Mutation>)
    requires Sorted(a) && Sorted(b) && Distinct(a) && Distinct(b)
    requires |a| > 0 && |b| > 0 && a[0].position == b[0].position
    requires Distinct(Merge(a[BlockLen(a, a[0].position)..], b[BlockLen(b, a[0].position)..]))
    ensures Distinct(Merge(a, b))
  {
    var p := a[0].position;
    var na, nb := BlockLen(a, p), BlockLen(b, p);
    var w := Without(b[..nb], a[..na]);
    var rest := Merge(a[na..], b[nb..]);
    TailDistinct(a, na);
    TailDistinct(b, nb);
    WithoutDistinct(b[..nb], a[..na]);
    WithoutElements(b[..nb], a[..na]);
    AppendDistinct(a[..na], w);
    var block := a[..na] + w;
    MergeElements(a[na..], b[nb..]);
    BeyondBlock(a, p);
    BeyondBlock(b, p);
    forall m | m in block ensures m !in rest {
      if m in w {
        assert m in b[..nb];
      }
    }
    AppendDistinct(block, rest);
  }

  /**
   * Merging two sorted runs without repeats gives a run without repeats:
   * a mutation both genomes carry is listed once.
   */
  lemma {:induction false} MergeDistinct(a: seq<Mutation>, b: seq<Mutation>)
    requires Sorted(a) && Sorted(b) && Distinct(a) && Distinct(b)
    ensures Distinct(Merge(a, b))
    decreases |a| + |b|
  {
    if |a| > 0 && |b| > 0 {
      if a[0].position < b[0].position {
        TailDistinct(a, 1);
        MergeDistinct(a[1..], b);
        MergeElements(a[1..], b);
        assert a[0] !in a[1..] by {
          forall k | 0 <= k < |a| - 1 ensures a[1..][k] != a[0] {
            assert a[k + 1] != a[0];
          }
        }
        BelowRun(a[0], b);
        AppendDistinct([a[0]], Merge(a[1..], b));
      } else if a[0].position > b[0].position {
        TailDistinct(b, 1);
        MergeDistinct(a, b[1..]);
        MergeElements(a, b[1..]);
        assert b[0] !in b[1..] by {
          forall k | 0 <= k < |b| - 1 ensures b[1..][k] != b[0] {
            assert b[k + 1] != b[0];
          }
        }
        BelowRun(b[0], a);
        AppendDistinct([b[0]], Merge(a, b[1..]));
      } else {
        var p := a[0].position;
        TailDistinct(a, BlockLen(a, p));
        TailDistinct(b, BlockLen(b, p));
        MergeDistinct(a[BlockLen(a, p)..], b[BlockLen(b, p)..]);
        MergeDistinctBlock(a, b);
      }
    }
  }

  // --------------------------------------------------------- the loop

  /** BlockLen(s, p) is n when s[..n] is at p and s[n] (if any) is not. */
  lemma {:induction false} BlockLenIs(s: seq<Mutation>, p: int, n: nat)
    requires n <= |s| && forall i :: 0 <= i < n ==> s[i].position == p
    requires n < |s| ==> s[n].position != p
    ensures BlockLen(s, p) == n
    decreases n
  {
    if n > 0 {
      BlockLenIs(s[1..], p, n - 1);
    }
  }

  /** The duplicate check of the loop: m is one of a[first..last]. */
  method InBlock(a: seq<Mutation>, first: nat, last: nat, m: Mutation) returns (found: bool)
    requires first <= last <= |a|
    ensures found <==> m in a[first..last]
  {
    var check := first;
    while check < last
      invariant first <= check <= last
      invariant forall t :: first <= t < check ==> a[t] != m
    {
      if a[check] == m {
        return true;
      }
      check := check + 1;
    }
    found := false;
  }

  /** The shared-position step: the first run's block at focal, then the second run's block without repeats. */
  method MergeBlock(a: seq<Mutation>, b: seq<Mutation>, i0: nat, j0: nat) returns (block: seq<Mutation>, i: nat, j: nat)
    requires i0 < |a| && j0 < |b| && a[i0].position == b[j0].position
    ensures i0 < i <= |a| && j0 < j <= |b|
    ensures i - i0 == BlockLen(a[i0..], a[i0].position) && j - j0 == BlockLen(b[j0..], a[i0].position)
    ensures block == a[i0..i] + Without(b[j0..j], a[i0..i])
  {
    var focal := a[i0].position;
    i := i0;
    var copied: seq<Mutation> := [];
    while i < |a| && a[i].position == focal
      invariant i0 <= i <= |a|
      invariant forall t :: i0 <= t < i ==> a[t].position == focal
      invariant copied == a[i0..i]
    {
      copied := copied + [a[i]];
      i := i + 1;
    }
    BlockLenIs(a[i0..], focal, i - i0);
    j := j0;
    var kept: seq<Mutation> := [];
    while j < |b| && b[j].position == focal
      invariant j0 <= j <= |b|
      invariant forall t :: j0 <= t < j ==> b[t].position == focal
      invariant kept == Without(b[j0..j], a[i0..i])
    {
      var seen := InBlock(a, i0, i, b[j]);
      assert b[j0..j + 1][..j - j0] == b[j0..j];
      if !seen {
        kept := kept + [b[j]];
      }
      j := j + 1;
    }
    BlockLenIs(b[j0..], focal, j - j0);
    block := copied + kept;
  }

  /** One step of the merge loop when the first run's mutation lies lower. */
  lemma MergeStepFirst(a: seq<Mutation>, b: seq<Mutation>, i: nat, j: nat)
    requires i < |a| && j < |b| && a[i].position < b[j].position
    ensures Merge(a[i..], b[j..]) == [a[i]] + Merge(a[i + 1..], b[j..])
  {
    assert a[i..][1..] == a[i + 1..];
  }

  /** One step of the merge loop when the second run's mutation lies lower. */
  lemma MergeStepSecond(a: seq<Mutation>, b: seq<Mutation>, i: nat, j: nat)
    requires i < |a| && j < |b| && a[i].position > b[j].position
    ensures Merge(a[i..], b[j..]) == [b[j]] + Merge(a[i..], b[j + 1..])
  {
    assert b[j..][1..] == b[j + 1..];
  }

  /** One step of the merge loop at a shared position. */
  lemma MergeStepBlock(a: seq<Mutation>, b: seq<Mutation>, i: nat, j: nat, i': nat, j': nat)
    requires i < |a| && j < |b| && a[i].position == b[j].position
    requires i < i' <= |a| && j < j' <= |b|
    requires i' - i == BlockLen(a[i..], a[i].position) && j' - j == BlockLen(b[j..], a[i].position)
    ensures Merge(a[i..], b[j..]) == a[i..i'] + Without(b[j..j'], a[i..i']) + Merge(a[i'..], b[j'..])
  {
    assert a[i..][..i' - i] == a[i..i'] && a[i..][i' - i..] == a[i'..];
    assert b[j..][..j' - j] == b[j..j'] && b[j..][j' - j..] == b[j'..];
  }

  /** Once one run is used up, the merge of what is left is the rest of the other. */
  lemma MergeTail(a: seq<Mutation>, b: seq<Mutation>, i: nat, j: nat)
    requires i <= |a| && j <= |b| && (i == |a| || j == |b|)
    ensures Merge(a[i..], b[j..]) == a[i..] + b[j..]
  {
  }

  /** The loop over one pair of runs of uniqueMutations. */
  method MergeRuns(a: seq<Mutation>, b: seq<Mutation>) returns (out: seq<Mutation>)
    ensures out == Merge(a, b)
  {
    out := [];
    var i, j := 0, 0;
    assert a[0..] == a && b[0..] == b;
    while i < |a| && j < |b|
      invariant 0 <= i <= |a| && 0 <= j <= |b|
      invariant out + Merge(a[i..], b[j..]) == Merge(a, b)
      decreases |a| - i + |b| - j
    {
      ghost var rest := Merge(a[i..], b[j..]);
      var emitted, i', j' := MergeStep(a, b, i, j);
      assert out + rest == (out + emitted) + Merge(a[i'..], b[j'..]);
      out := out + emitted;
      i, j := i', j';
    }
    // the tails: at most one run has mutations left
    MergeTail(a, b, i, j);
    out := out + a[i..] + b[j..];
  }

  /**
   * One pass of the do-loop: the lower mutation, or at a shared position
   * the two blocks, and the positions in the two runs after them.
   */
  method MergeStep(a: seq<Mutation>, b: seq<Mutation>, i: nat, j: nat) returns (emitted: seq<Mutation>, i': nat, j': nat)
    requires i < |a| && j < |b|
    ensures i <= i' <= |a| && j <= j' <= |b| && i' + j' > i + j
    ensures Merge(a[i..], b[j..]) == emitted + Merge(a[i'..], b[j'..])
  {
    if a[i].position < b[j].position {
      MergeStepFirst(a, b, i, j);
      emitted, i', j' := [a[i]], i + 1, j;
    } else if a[i].position > b[j].position {
      MergeStepSecond(a, b, i, j);
      emitted, i', j' := [b[j]], i, j + 1;
    } else {
      emitted, i', j' := MergeBlock(a, b, i, j);
      MergeStepBlock(a, b, i, j, i', j');
    }
  }

  // --------------------------------------------------------- the genomes

  /** The number of mutations in a genome, summed over its runs. */
  function Size(runs: seq<seq<Mutation>>): nat
  {
    if |runs| == 0 then 0 else Size(runs[..|runs| - 1]) + |runs[|runs| - 1]|
  }

  /** Run k of a genome, or no mutations when the genome has none (or no run k). */
  function RunOf(runs: seq<seq<Mutation>>, k: nat): seq<Mutation>
  {
    if Size(runs) == 0 || k >= |runs| then [] else runs[k]
  }

  /** The number of runs the loop visits: the first genome's when it has mutations, else the second's. */
  function RunCount(g1: seq<seq<Mutation>>, g2: seq<seq<Mutation>>): nat
  {
    if Size(g1) > 0 then |g1| else |g2|
  }

  /** The genomes have a common run count whenever both carry mutations. */
  predicate Compatible(g1: seq<seq<Mutation>>, g2: seq<seq<Mutation>>)
  {
    Size(g1) > 0 && Size(g2) > 0 ==> |g1| == |g2|
  }

  /** The merges of the first n pairs of runs, one after the other. */
  function MergedRuns(g1: seq<seq<Mutation>>, g2: seq<seq<Mutation>>, n: nat): seq<Mutation>
    requires Compatible(g1, g2) && n <= RunCount(g1, g2)
  {
    if n == 0 then [] else MergedRuns(g1, g2, n - 1) + Merge(RunOf(g1, n - 1), RunOf(g2, n - 1))
  }

  /** m is in some run of the genome. */
  predicate Carries(runs: seq<seq<Mutation>>, m: Mutation)
  {
    exists k :: 0 <= k < |runs| && m in runs[k]
  }

  lemma {:induction false} EmptyGenome(runs: seq<seq<Mutation>>)
    requires Size(runs) == 0
    ensures forall k :: 0 <= k < |runs| ==> runs[k] == []
    decreases |runs|
  {
    if |runs| > 0 {
      EmptyGenome(runs[..|runs| - 1]);
      forall k | 0 <= k < |runs| - 1 ensures runs[k] == [] {
        assert runs[k] == runs[..|runs| - 1][k];
      }
    }
  }

  /** m is in one of the first n runs the loop visits of a genome. */
  predicate InRuns(runs: seq<seq<Mutation>>, n: nat, m: Mutation)
  {
    exists k :: 0 <= k < n && m in RunOf(runs, k)
  }

  lemma InRunsStep(runs: seq<seq<Mutation>>, n: nat, m: Mutation)
    requires n > 0
    ensures InRuns(runs, n, m) <==> InRuns(runs, n - 1, m) || m in RunOf(runs, n - 1)
  {
    if InRuns(runs, n, m) && !(m in RunOf(runs, n - 1)) {
      var k :| 0 <= k < n && m in RunOf(runs, k);
      assert k < n - 1;
    }
  }

  /** The merged runs hold exactly the mutations of the first n runs of either genome. */
  lemma {:induction false} MergedRunsElements(g1: seq<seq<Mutation>>, g2: seq<seq<Mutation>>, n: nat, m: Mutation)
    requires Compatible(g1, g2) && n <= RunCount(g1, g2)
    ensures m in MergedRuns(g1, g2, n) <==> InRuns(g1, n, m) || InRuns(g2, n, m)
    decreases n
  {
    if n > 0 {
      MergedRunsElements(g1, g2, n - 1, m);
      MergeElements(RunOf(g1, n - 1), RunOf(g2, n - 1));
      InRunsStep(g1, n, m);
      InRunsStep(g2, n, m);
    }
  }

  /** Every mutation of s lies in [lo, hi). */
  predicate Within(s: seq<Mutation>, lo: int, hi: int)
  {
    forall i :: 0 <= i < |s| ==> lo <= s[i].position < hi
  }

  /**
   * The run layout of a genome: run k holds the mutations at positions
   * [k * runLength, (k + 1) * runLength), sorted by position, each once.
   */
  predicate Layout(runs: seq<seq<Mutation>>, runLength: nat)
  {
    forall k :: 0 <= k < |runs| ==> RunLaid(runs, k, runLength)
  }

  /** Run k of the layout. */
  predicate RunLaid(runs: seq<seq<Mutation>>, k: nat, runLength: nat)
    requires k < |runs|
  {
    Sorted(runs[k]) && Distinct(runs[k]) && Within(runs[k], k * runLength, (k + 1) * runLength)
  }

  lemma RunOfLaid(runs: seq<seq<Mutation>>, runLength: nat, k: nat)
    requires Layout(runs, runLength)
    ensures var s := RunOf(runs, k); Sorted(s) && Distinct(s) && Within(s, k * runLength, k * runLength + runLength)
  {
    RunBounds(k, runLength);
    if Size(runs) != 0 && k < |runs| {
      assert RunLaid(runs, k, runLength);
    }
  }

  /** Run k starts at a non-negative position and run k + 1 starts where run k ends. */
  lemma RunBounds(k: nat, runLength: nat)
    ensures 0 <= k * runLength && (k + 1) * runLength == k * runLength + runLength
  {
  }

  /** The merge of two runs within [lo, hi) stays within [lo, hi). */
  lemma MergeWithin(a: seq<Mutation>, b: seq<Mutation>, lo: int, hi: int)
    requires Within(a, lo, hi) && Within(b, lo, hi)
    ensures Within(Merge(a, b), lo, hi)
  {
    MergeElements(a, b);
    forall i | 0 <= i < |Merge(a, b)| ensures lo <= Merge(a, b)[i].position < hi {
      var m := Merge(a, b)[i];
      assert m in Merge(a, b);
      if m in a {
        var j :| 0 <= j < |a| && a[j] == m;
      } else {
        var j :| 0 <= j < |b| && b[j] == m;
      }
    }
  }

  /**
   * Under the run layout, the merges of the first n pairs of runs are
   * sorted by position, hold every mutation once, and lie below the end of
   * run n - 1.
   */
  lemma {:induction false} MergedRunsOrdered(g1: seq<seq<Mutation>>, g2: seq<seq<Mutation>>, n: nat, runLength: nat)
    requires Compatible(g1, g2) && n <= RunCount(g1, g2)
    requires Layout(g1, runLength) && Layout(g2, runLength)
    ensures var u := MergedRuns(g1, g2, n); Sorted(u) && Distinct(u) && Within(u, 0, n * runLength)
    decreases n
  {
    if n > 0 {
      MergedRunsOrdered(g1, g2, n - 1, runLength);
      RunOfLaid(g1, runLength, n - 1);
      RunOfLaid(g2, runLength, n - 1);
      RunBounds(n - 1, runLength);
      MergedRunsStep(g1, g2, n, (n - 1) * runLength, (n - 1) * runLength + runLength);
    }
  }

  /** One step of MergedRunsOrdered: appending the merge of runs n - 1, which lie within [lo, hi). */
  lemma MergedRunsStep(g1: seq<seq<Mutation>>, g2: seq<seq<Mutation>>, n: nat, lo: int, hi: int)
    requires Compatible(g1, g2) && 0 < n <= RunCount(g1, g2) && 0 <= lo <= hi
    requires var u := MergedRuns(g1, g2, n - 1); Sorted(u) && Distinct(u) && Within(u, 0, lo)
    requires var a := RunOf(g1, n - 1); Sorted(a) && Distinct(a) && Within(a, lo, hi)
    requires var b := RunOf(g2, n - 1); Sorted(b) && Distinct(b) && Within(b, lo, hi)
    ensures var u := MergedRuns(g1, g2, n); Sorted(u) && Distinct(u) && Within(u, 0, hi)
  {
    var a, b := RunOf(g1, n - 1), RunOf(g2, n - 1);
    MergeOrdered(a, b, lo, hi);
    AppendOrdered(MergedRuns(g1, g2, n - 1), Merge(a, b), lo, hi);
  }

  /** The merge of two sorted, repeat-free runs within [lo, hi) is sorted, repeat-free and within [lo, hi). */
  lemma MergeOrdered(a: seq<Mutation>, b: seq<Mutation>, lo: int, hi: int)
    requires Sorted(a) && Distinct(a) && Within(a, lo, hi)
    requires Sorted(b) && Distinct(b) && Within(b, lo, hi)
    ensures var v := Merge(a, b); Sorted(v) && Distinct(v) && Within(v, lo, hi)
  {
    MergeSorted(a, b);
    MergeDistinct(a, b);
    MergeWithin(a, b, lo, hi);
  }

  /** A sorted, repeat-free run below lo followed by one within [lo, hi) is sorted, repeat-free and below hi. */
  lemma AppendOrdered(u: seq<Mutation>, v: seq<Mutation>, lo: int, hi: int)
    requires Sorted(u) && Distinct(u) && Within(u, 0, lo)
    requires Sorted(v) && Distinct(v) && Within(v, lo, hi) && 0 <= lo <= hi
    ensures Sorted(u + v) && Distinct(u + v) && Within(u + v, 0, hi)
  {
    forall m | m in u ensures m !in v {
      var i :| 0 <= i < |u| && u[i] == m;
      assert m.position < lo;
      assert forall j :: 0 <= j < |v| ==> v[j].position >= lo;
    }
    AppendDistinct(u, v);
    forall i, j | 0 <= i < j < |u + v| ensures (u + v)[i].position <= (u + v)[j].position {
      if j < |u| {
        assert (u + v)[i] == u[i] && (u + v)[j] == u[j];
      } else if i >= |u| {
        assert (u + v)[i] == v[i - |u|] && (u + v)[j] == v[j - |u|];
      } else {
        assert (u + v)[i] == u[i] && (u + v)[j] == v[j - |u|];
      }
    }
    forall i | 0 <= i < |u + v| ensures 0 <= (u + v)[i].position < hi {
      if i < |u| {
        assert (u + v)[i] == u[i];
      } else {
        assert (u + v)[i] == v[i - |u|];
      }
    }
  }

  /**
   * uniqueMutations: nothing when neither genome has mutations; otherwise
   * the merge of every pair of runs, and so every mutation either genome
   * carries, each once, in position order.
   */
  method UniqueMutationsOf(g1: seq<seq<Mutation>>, g2: seq<seq<Mutation>>, ghost runLength: nat) returns (r: seq<Mutation>)
    requires Compatible(g1, g2)
    requires Layout(g1, runLength) && Layout(g2, runLength)
    ensures r == MergedRuns(g1, g2, RunCount(g1, g2))
    ensures forall m :: m in r <==> Carries(g1, m) || Carries(g2, m)
    ensures Sorted(r) && Distinct(r)
  {
    r := [];
    var count := RunCount(g1, g2);
    MergedRunsCarried(g1, g2);
    MergedRunsOrdered(g1, g2, count, runLength);
    if Size(g1) == 0 && Size(g2) == 0 {
      ZeroRunsMerged(g1, g2, count);
      return;
    }
    var k := 0;
    while k < count
      invariant 0 <= k <= count
      invariant r == MergedRuns(g1, g2, k)
    {
      var run := MergeRuns(RunOf(g1, k), RunOf(g2, k));
      r := r + run;
      k := k + 1;
    }
  }

  /** The merges of all the runs the loop visits hold exactly the mutations either genome carries. */
  lemma MergedRunsCarried(g1: seq<seq<Mutation>>, g2: seq<seq<Mutation>>)
    requires Compatible(g1, g2)
    ensures forall m :: m in MergedRuns(g1, g2, RunCount(g1, g2)) <==> Carries(g1, m) || Carries(g2, m)
  {
    var count := RunCount(g1, g2);
    if Size(g1) == 0 && Size(g2) == 0 {
      EmptyGenome(g1);
      EmptyGenome(g2);
      EmptyGenome(if |g1| > 0 then g1 else g2);
      assert forall m :: !Carries(g1, m) && !Carries(g2, m);
      ZeroRunsMerged(g1, g2, count);
    } else {
      forall m ensures m in MergedRuns(g1, g2, count) <==> Carries(g1, m) || Carries(g2, m) {
        MergedRunsElements(g1, g2, count, m);
        CarriesRuns(g1, g2, m);
      }
    }
  }

  /** With no mutations anywhere, every merged run is empty. */
  lemma {:induction false} ZeroRunsMerged(g1: seq<seq<Mutation>>, g2: seq<seq<Mutation>>, n: nat)
    requires Compatible(g1, g2) && Size(g1) == 0 && Size(g2) == 0 && n <= RunCount(g1, g2)
    ensures MergedRuns(g1, g2, n) == []
    decreases n
  {
    if n > 0 {
      ZeroRunsMerged(g1, g2, n - 1);
    }
  }

  /** Carrying a mutation is being in one of the runs the loop visits. */
  lemma CarriesRuns(g1: seq<seq<Mutation>>, g2: seq<seq<Mutation>>, m: Mutation)
    requires Compatible(g1, g2) && (Size(g1) > 0 || Size(g2) > 0)
    ensures Carries(g1, m) <==> InRuns(g1, RunCount(g1, g2), m)
    ensures Carries(g2, m) <==> InRuns(g2, RunCount(g1, g2), m)
  {
    if Size(g1) == 0 {
      EmptyGenome(g1);
    }
    if Size(g2) == 0 {
      EmptyGenome(g2);
    }
    if Carries(g1, m) {
      var k :| 0 <= k < |g1| && m in g1[k];
      assert m in RunOf(g1, k);
    }
    if Carries(g2, m) {
      var k :| 0 <= k < |g2| && m in g2[k];
      assert m in RunOf(g2, k);
    }
  }
}

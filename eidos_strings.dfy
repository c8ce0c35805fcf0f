/**
 * The string builtins substr() and strsplit() of eidos_functions.cpp.
 * Strings are sequences of characters and positions count characters; the
 * C++ code counts the bytes of std::string, which agree for ASCII text only.
 */
module EidosStrings {
  import opened EidosValue

  const INT32_MIN: int := -0x8000_0000
  const INT32_MAX: int := 0x7FFF_FFFF
  const TWO_32: int := 0x1_0000_0000

  predicate InInt32(x: int) { INT32_MIN <= x <= INT32_MAX }

  /** The (int) cast of an int64: the low 32 bits, read as two's complement. */
  function Wrap32(x: int): (r: int)
    ensures InInt32(r)
    ensures (r - x) % TWO_32 == 0
    ensures InInt32(x) ==> r == x
  {
    (x - INT32_MIN) % TWO_32 + INT32_MIN
  }

  /** An int converted to size_t for a comparison with a string length. */
  function AsSize(x: int): int
  {
    if x < 0 then x + TWO_64 else x
  }

  function Max(a: int, b: int): int { if a < b then b else a }
  function Min(a: int, b: int): int { if a < b then a else b }

  // ---------------------------------------------------------------- substr()

  /**
   * substr() of one string as the code computes it: first and last are cast
   * to int, first is clamped at 0, and last is clamped to len - 1 by a
   * comparison against the unsigned length, in which a negative last counts
   * as a huge value.
   */
  function SubstrAsWritten(s: string, first: int, last: Option<int>): string
  {
    var len := |s|;
    var cf := Max(Wrap32(first), 0);
    if last.None? then
      (if cf >= len then "" else s[cf..])
    else
      var cl0 := Wrap32(last.value);
      var cl := if AsSize(cl0) >= len then len - 1 else cl0;
      if cf >= len || cl < 0 || cf > cl then "" else s[cf..cl + 1]
  }

  /**
   * substr() of one string as documented: the characters at positions
   * first through last (to the end when last is absent), with positions
   * outside the string dropped.
   */
  function Substr(s: string, first: int, last: Option<int>): string
  {
    var lo := Max(first, 0);
    var hi := if last.None? then |s| else Min(last.value + 1, |s|);
    if lo < hi then s[lo..hi] else ""
  }

  /** Position p lies within [first, last]. */
  predicate Selected(p: int, first: int, last: Option<int>)
  {
    first <= p && (last.None? || p <= last.value)
  }

  /**
   * substr() keeps, in order, the characters of s from position max(first, 0)
   * on; it covers exactly the positions of s that lie in [first, last], so it
   * ends at min(last, |s| - 1), and it is empty exactly when no position does.
   */
  lemma SubstrPositions(s: string, first: int, last: Option<int>)
    ensures var r := Substr(s, first, last);
      && |r| <= |s|
      && (forall k :: 0 <= k < |r| ==> Max(first, 0) + k < |s| && r[k] == s[Max(first, 0) + k])
      && (forall p :: 0 <= p < |s| ==> (Selected(p, first, last) <==> Max(first, 0) <= p < Max(first, 0) + |r|))
      && |r| == Max(0, (if last.None? then |s| else Min(last.value + 1, |s|)) - Max(first, 0))
      && (r == "" <==> forall p :: 0 <= p < |s| ==> !Selected(p, first, last))
  {
    var r := Substr(s, first, last);
    if r != "" {
      var p := Max(first, 0);
      assert 0 <= p < |s| && Selected(p, first, last);
    }
  }

  /** Cutting a string at k and taking the two substrings gives the string back. */
  lemma SubstrSplitJoin(s: string, k: int)
    requires 0 <= k <= |s|
    ensures Substr(s, 0, Some(k - 1)) + Substr(s, k, None) == s
  {
    assert s[0..k] + s[k..] == s;
  }

  /**
   * Where the casts lose nothing and last is not negative, the code
   * computes the documented substring.
   */
  lemma SubstrAsWrittenAgrees(s: string, first: int, last: Option<int>)
    requires InInt32(first) && (last.Some? ==> 0 <= last.value <= INT32_MAX)
    ensures SubstrAsWritten(s, first, last) == Substr(s, first, last)
  {
  }

  /** substr("abc", 0, -1): the unsigned comparison turns last = -1 into the end of the string. */
  lemma SubstrNegativeLastAsWritten()
    ensures SubstrAsWritten("abc", 0, Some(-1)) == "abc"
    ensures Substr("abc", 0, Some(-1)) == ""
  {
    assert Wrap32(-1) == -1;
    assert Wrap32(0) == 0;
    assert "abc"[0..3] == "abc";
  }

  /** substr("abc", 4294967296): the (int) cast turns first = 2^32 into 0. */
  lemma SubstrTruncatedFirstAsWritten()
    ensures SubstrAsWritten("abc", TWO_32, None) == "abc"
    ensures Substr("abc", TWO_32, None) == ""
  {
    assert Wrap32(TWO_32) == 0;
    assert "abc"[0..] == "abc";
  }

  /** The argument used for element i: the single value when there is one, else the i-th. */
  function Pick(v: seq<int>, i: nat): int
    requires |v| == 1 || i < |v|
  {
    if |v| == 1 then v[0] else v[i]
  }

  /**
   * substr() of a string vector: first (and last, when supplied) must hold
   * one value or one per string (else raise), and its first value is read
   * before anything else (reading it from an empty argument raises);
   * element i of the result is the substring of x[i].
   */
  method SubstrValue(xs: seq<string>, first: seq<int>, last: Option<seq<int>>) returns (r: Result<seq<string>>)
    ensures |first| != 1 && |first| != |xs| ==> r == Err(CountSizeMismatch)
    ensures r.Ok? <==>
      && (|first| == 1 || |first| == |xs|) && |first| > 0
      && (last.Some? ==> (|last.value| == 1 || |last.value| == |xs|) && |last.value| > 0)
    ensures r.Ok? ==> |r.value| == |xs| && forall i :: 0 <= i < |xs| ==>
      r.value[i] == Substr(xs[i], Pick(first, i), if last.None? then None else Some(Pick(last.value, i)))
  {
    if |first| != 1 && |first| != |xs| {
      return Err(CountSizeMismatch);
    }
    if |first| == 0 {
      return Err(SubscriptOutOfRange);
    }
    if last.Some? {
      if |last.value| != 1 && |last.value| != |xs| {
        return Err(CountSizeMismatch);
      }
      if |last.value| == 0 {
        return Err(SubscriptOutOfRange);
      }
    }
    var out: seq<string> := [];
    var i := 0;
    while i < |xs|
      invariant 0 <= i <= |xs| && |out| == i
      invariant forall k :: 0 <= k < i ==>
        out[k] == Substr(xs[k], Pick(first, k), if last.None? then None else Some(Pick(last.value, k)))
    {
      var l := if last.None? then None else Some(Pick(last.value, i));
      out := out + [Substr(xs[i], Pick(first, i), l)];
      i := i + 1;
    }
    r := Ok(out);
  }

  // ---------------------------------------------------------------- strsplit()

  /** sep occurs in s at position i. */
  predicate OccursAt(s: string, sep: string, i: nat)
  {
    i + |sep| <= |s| && s[i..i + |sep|] == sep
  }

  /** std::string::find(sep, start): the first occurrence of sep at or after start. */
  function FindFrom(s: string, sep: string, start: nat): (r: Option<nat>)
    requires start <= |s|
    ensures r.Some? ==> start <= r.value && OccursAt(s, sep, r.value)
    ensures r.Some? ==> forall i :: start <= i < r.value ==> !OccursAt(s, sep, i)
    ensures r.None? ==> forall i :: start <= i ==> !OccursAt(s, sep, i)
    decreases |s| - start
  {
    if start + |sep| > |s| then None
    else if s[start..start + |sep|] == sep then Some(start)
    else FindFrom(s, sep, start + 1)
  }

  /** The pieces of s[start..] between occurrences of a non-empty sep. */
  function SplitFrom(s: string, sep: string, start: nat): (r: seq<string>)
    requires start <= |s| && |sep| > 0
    ensures |r| > 0
    decreases |s| - start
  {
    match FindFrom(s, sep, start)
    case None => [s[start..]]
    case Some(i) => [s[start..i]] + SplitFrom(s, sep, i + |sep|)
  }

  /** The pieces joined back, with sep between neighbours. */
  function Join(pieces: seq<string>, sep: string): string
    decreases |pieces|
  {
    if |pieces| == 0 then ""
    else if |pieces| == 1 then pieces[0]
    else pieces[0] + sep + Join(pieces[1..], sep)
  }

  /** Each character of s on its own; the empty string gives one empty piece. */
  function Characters(s: string): (r: seq<string>)
    ensures |r| == Max(|s|, 1)
  {
    if |s| == 0 then [""] else seq(|s|, i requires 0 <= i < |s| => [s[i]])
  }

  /** strsplit() as intended: a non-empty separator cuts s at each occurrence; the empty one cuts between characters. */
  function Split(s: string, sep: string): seq<string>
  {
    if |sep| == 0 then Characters(s) else SplitFrom(s, sep, 0)
  }

  lemma {:induction false} SplitFromJoin(s: string, sep: string, start: nat)
    requires start <= |s| && |sep| > 0
    ensures Join(SplitFrom(s, sep, start), sep) == s[start..]
    decreases |s| - start
  {
    match FindFrom(s, sep, start)
    case None =>
    case Some(i) =>
      SplitFromJoin(s, sep, i + |sep|);
      assert s[start..] == s[start..i] + s[i..i + |sep|] + s[i + |sep|..];
  }

  lemma {:induction false} CharactersJoin(s: string)
    ensures Join(Characters(s), "") == s
    decreases |s|
  {
    if |s| > 1 {
      CharactersJoin(s[1..]);
      assert Characters(s)[1..] == Characters(s[1..]);
      assert s == [s[0]] + s[1..];
    }
  }

  /** strsplit() loses nothing: joining the pieces with the separator gives the string back. */
  lemma SplitJoin(s: string, sep: string)
    ensures Join(Split(s, sep), sep) == s
  {
    if |sep| == 0 {
      CharactersJoin(s);
    } else {
      SplitFromJoin(s, sep, 0);
    }
  }

  /** No piece of a split by a non-empty separator contains the separator. */
  lemma {:induction false} SplitFromPiecesFree(s: string, sep: string, start: nat)
    requires start <= |s| && |sep| > 0
    ensures forall k, j :: 0 <= k < |SplitFrom(s, sep, start)| && 0 <= j ==> !OccursAt(SplitFrom(s, sep, start)[k], sep, j)
    decreases |s| - start
  {
    match FindFrom(s, sep, start)
    case None =>
      forall j | 0 <= j ensures !OccursAt(s[start..], sep, j) {
        if j + |sep| <= |s| - start {
          assert s[start..][j..j + |sep|] == s[start + j..start + j + |sep|];
          assert !OccursAt(s, sep, start + j);
        }
      }
    case Some(i) =>
      SplitFromPiecesFree(s, sep, i + |sep|);
      forall j | 0 <= j ensures !OccursAt(s[start..i], sep, j) {
        if j + |sep| <= i - start {
          assert s[start..i][j..j + |sep|] == s[start + j..start + j + |sep|];
          assert !OccursAt(s, sep, start + j);
        }
      }
  }

  /** The position strsplit()'s loop moves to after the piece at start, as written. */
  function NextStartAsWritten(s: string, sep: string, start: nat): Option<nat>
    requires start <= |s|
  {
    match FindFrom(s, sep, start)
    case None => None
    case Some(i) => Some(i + |sep|)
  }

  /** With an empty separator the loop of strsplit() as written never advances: find() matches at start every time. */
  lemma StrSplitEmptySepAsWritten(s: string, start: nat)
    requires start <= |s|
    ensures NextStartAsWritten(s, "", start) == Some(start)
  {
    assert s[start..start] == "";
  }

  /**
   * strsplit(x, sep): the loop pushes the piece up to each occurrence of sep
   * found by find(), then the rest; sep defaults to a single space. An empty
   * sep splits x into its characters.
   */
  method StrSplit(s: string, sep: Option<string>) returns (r: seq<string>)
    ensures r == Split(s, if sep.Some? then sep.value else " ")
    ensures Join(r, if sep.Some? then sep.value else " ") == s
  {
    var separator := if sep.Some? then sep.value else " ";
    SplitJoin(s, separator);
    if |separator| == 0 {
      r := SplitCharacters(s);
    } else {
      r := SplitLoop(s, separator);
    }
  }

  /** The pieces of s split at a non-empty separator, found by find() from each start in turn. */
  method SplitLoop(s: string, sep: string) returns (r: seq<string>)
    requires |sep| > 0
    ensures r == SplitFrom(s, sep, 0)
  {
    r := [];
    var start := 0;
    while true
      invariant start <= |s|
      invariant r + SplitFrom(s, sep, start) == SplitFrom(s, sep, 0)
      decreases |s| - start
    {
      var found := FindFrom(s, sep, start);
      if found.None? {
        assert SplitFrom(s, sep, start) == [s[start..]];
        r := r + [s[start..]];
        return;
      }
      var next := found.value + |sep|;
      assert SplitFrom(s, sep, start) == [s[start..found.value]] + SplitFrom(s, sep, next);
      assert r + SplitFrom(s, sep, start) == (r + [s[start..found.value]]) + SplitFrom(s, sep, next);
      r := r + [s[start..found.value]];
      start := next;
    }
  }

  /** The characters of s, one string each. */
  method SplitCharacters(s: string) returns (r: seq<string>)
    ensures r == Characters(s)
  {
    if |s| == 0 {
      return [""];
    }
    r := [];
    var i := 0;
    while i < |s|
      invariant 0 <= i <= |s| && |r| == i
      invariant forall k :: 0 <= k < i ==> r[k] == [s[k]]
    {
      r := r + [[s[i]]];
      i := i + 1;
    }
  }
}

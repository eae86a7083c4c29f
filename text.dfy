/**
 * Python string operations the catalog code relies on: `str.split` with an
 * explicit one-character separator, its inverse `sep.join`, and slicing with
 * a non-negative start (`s[n:]`) or a negative stop (`s[:-n]`).
 *
 * Splitting works on positions in the original string rather than on
 * ever shorter copies of it, the way `str.split` scans.
 */
module Text {

  /** Position of the first `c` in `s` at or after `q`, or `|s|` when there is none. */
  function IndexFrom(s: string, c: char, q: nat): (i: nat)
    requires q <= |s|
    ensures q <= i <= |s|
    ensures i < |s| ==> s[i] == c
    decreases |s| - q
  {
    if q == |s| || s[q] == c then q else IndexFrom(s, c, q + 1)
  }

  /** `s[q:].split(c)`: the pieces between occurrences of `c`; never empty. */
  function SplitFrom(s: string, c: char, q: nat): (parts: seq<string>)
    requires q <= |s|
    ensures |parts| >= 1
    decreases |s| - q
  {
    var i := IndexFrom(s, c, q);
    [s[q..i]] + (if i < |s| then SplitFrom(s, c, i + 1) else [])
  }

  /** `s.split(c)`. */
  function Split(s: string, c: char): (parts: seq<string>)
    ensures |parts| >= 1
  {
    SplitFrom(s, c, 0)
  }

  /** `c.join(parts)`. */
  function Join(parts: seq<string>, c: char): string
  {
    if parts == [] then []
    else if |parts| == 1 then parts[0]
    else parts[0] + [c] + Join(parts[1..], c)
  }

  /** `xs[-1]`. */
  function Last<T>(xs: seq<T>): T
    requires |xs| > 0
  {
    xs[|xs| - 1]
  }

  /** `s[n:]` for `n >= 0`: Python clamps a start past the end to the empty string. */
  function Drop(s: string, n: nat): (r: string)
    ensures n <= |s| ==> s[..n] + r == s
    ensures n > |s| ==> r == []
  {
    if n <= |s| then s[n..] else []
  }

  /** `s[:-n]` for `n > 0`: everything but the last `n` characters, or nothing. */
  function DropLast(s: string, n: nat): (r: string)
    requires n > 0
    ensures n <= |s| ==> r + s[|s| - n..] == s
    ensures n > |s| ==> r == []
  {
    if n <= |s| then s[..|s| - n] else []
  }

  predicate IsPrefix(p: string, s: string)
  {
    |p| <= |s| && s[..|p|] == p
  }

  predicate IsSuffix(p: string, s: string)
  {
    |p| <= |s| && s[|s| - |p|..] == p
  }

  /** `r` is the longest suffix of `s` without `c`. */
  predicate FreeSuffix(r: string, s: string, c: char)
  {
    IsSuffix(r, s) && c !in r && (|r| == |s| || s[|s| - |r| - 1] == c)
  }

  /** No `c` lies between `q` and the position `IndexFrom` reports. */
  lemma {:induction false} IndexFromFree(s: string, c: char, q: nat)
    requires q <= |s|
    ensures c !in s[q..IndexFrom(s, c, q)]
    decreases |s| - q
  {
    var i := IndexFrom(s, c, q);
    if i > q {
      IndexFromFree(s, c, q + 1);
      assert s[q..i] == [s[q]] + s[q + 1..i];
    }
  }

  /** A position with `c` and no `c` between `q` and it is the one `IndexFrom` reports; `|s|` when there is none. */
  lemma {:induction false} IndexFromAt(s: string, c: char, q: nat, k: nat)
    requires q <= k <= |s| && c !in s[q..k]
    requires k < |s| ==> s[k] == c
    ensures IndexFrom(s, c, q) == k
    decreases k - q
  {
    if q < k {
      assert s[q] == s[q..k][0];
      assert s[q + 1..k] == s[q..k][1..];
      IndexFromAt(s, c, q + 1, k);
    }
  }

  /** Splitting never loses characters: joining the pieces gives back `s[q..]`. */
  lemma {:induction false} JoinSplitFrom(s: string, c: char, q: nat)
    requires q <= |s|
    ensures Join(SplitFrom(s, c, q), c) == s[q..]
    decreases |s| - q
  {
    var i := IndexFrom(s, c, q);
    if i == |s| {
      assert Join(SplitFrom(s, c, q), c) == s[q..i];
    } else {
      var rest := SplitFrom(s, c, i + 1);
      JoinSplitFrom(s, c, i + 1);
      JoinCons(s[q..i], rest, c);
      assert s[q..] == s[q..i] + [c] + s[i + 1..];
    }
  }

  /** One step of the split, after a separator. */
  lemma SplitFromStep(s: string, c: char, q: nat)
    requires q <= |s| && IndexFrom(s, c, q) < |s|
    ensures var i := IndexFrom(s, c, q);
      SplitFrom(s, c, q) == [s[q..i]] + SplitFrom(s, c, i + 1)
  {
  }

  lemma JoinSplit(s: string, c: char)
    ensures Join(Split(s, c), c) == s
  {
    JoinSplitFrom(s, c, 0);
  }

  lemma JoinCons(x: string, xs: seq<string>, c: char)
    requires |xs| >= 1
    ensures Join([x] + xs, c) == x + [c] + Join(xs, c)
  {
    assert ([x] + xs)[1..] == xs;
  }

  /** No piece of a split contains the separator. */
  lemma {:induction false} SplitFromPiecesFree(s: string, c: char, q: nat, k: nat)
    requires q <= |s| && k < |SplitFrom(s, c, q)|
    ensures c !in SplitFrom(s, c, q)[k]
    decreases |s| - q
  {
    var i := IndexFrom(s, c, q);
    if k == 0 {
      IndexFromFree(s, c, q);
    } else {
      var rest := SplitFrom(s, c, i + 1);
      SplitFromStep(s, c, q);
      assert SplitFrom(s, c, q)[k] == rest[k - 1];
      SplitFromPiecesFree(s, c, i + 1, k - 1);
    }
  }

  lemma SplitPiecesFree(s: string, c: char, k: nat)
    requires k < |Split(s, c)|
    ensures c !in Split(s, c)[k]
  {
    SplitFromPiecesFree(s, c, 0, k);
  }

  /** No part contains the separator. */
  predicate AllFree(parts: seq<string>, c: char)
    decreases |parts|
  {
    parts == [] || (c !in parts[0] && AllFree(parts[1..], c))
  }

  lemma {:induction false} AllFreeOf(parts: seq<string>, c: char)
    requires forall k :: 0 <= k < |parts| ==> c !in parts[k]
    ensures AllFree(parts, c)
    decreases |parts|
  {
    if parts != [] {
      assert forall k :: 0 <= k < |parts[1..]| ==> parts[1..][k] == parts[k + 1];
      AllFreeOf(parts[1..], c);
    }
  }

  /** The other direction: pieces free of the separator come back from a join unchanged. */
  lemma {:induction false} SplitFromJoin(s: string, c: char, q: nat, parts: seq<string>)
    requires q <= |s| && s[q..] == Join(parts, c)
    requires |parts| >= 1 && AllFree(parts, c)
    ensures SplitFrom(s, c, q) == parts
    decreases |parts|
  {
    if |parts| == 1 {
      SplitFromWhole(s, c, q, parts[0]);
      assert parts == [parts[0]];
    } else {
      var k := q + |parts[0]|;
      JoinHead(s, c, q, parts);
      SplitFromJoin(s, c, k + 1, parts[1..]);
      SplitFromStep(s, c, q);
      ConsOfParts(SplitFrom(s, c, q), s[q..k], SplitFrom(s, c, k + 1), parts);
    }
  }

  /** The rest of the text, free of the separator, is the last piece. */
  lemma SplitFromWhole(s: string, c: char, q: nat, r: string)
    requires q <= |s| && s[q..] == r && c !in r
    ensures SplitFrom(s, c, q) == [r]
  {
    assert s[q..|s|] == r;
    IndexFromAt(s, c, q, |s|);
  }

  /** In the text of a join, the first separator ends the first part. */
  lemma JoinHead(s: string, c: char, q: nat, parts: seq<string>)
    requires q <= |s| && s[q..] == Join(parts, c)
    requires |parts| >= 2 && c !in parts[0]
    ensures var k := q + |parts[0]|;
      k < |s| && IndexFrom(s, c, q) == k && s[q..k] == parts[0] && s[k + 1..] == Join(parts[1..], c)
  {
    var p0 := parts[0];
    var rest := Join(parts[1..], c);
    var k := q + |p0|;
    assert s[q..] == p0 + [c] + rest;
    assert s[q..k] == p0;
    assert s[k] == c;
    IndexFromAt(s, c, q, k);
    assert s[k + 1..] == rest;
  }

  lemma SplitJoin(parts: seq<string>, c: char)
    requires |parts| >= 1
    requires forall k :: 0 <= k < |parts| ==> c !in parts[k]
    ensures Split(Join(parts, c), c) == parts
  {
    var s := Join(parts, c);
    assert s[0..] == s;
    AllFreeOf(parts, c);
    SplitFromJoin(s, c, 0, parts);
  }

  /** The first piece of a split is the longest separator-free prefix. */
  lemma FirstPiece(s: string, c: char)
    ensures var r := Split(s, c)[0];
      IsPrefix(r, s) && c !in r && (|r| == |s| || s[|r|] == c)
  {
    IndexFromFree(s, c, 0);
  }

  /**
   * The last piece of a split is the longest separator-free suffix: when it is
   * shorter than `s`, the character right before it is the separator.
   */
  lemma {:induction false} LastPieceFrom(s: string, c: char, q: nat)
    requires q <= |s| && (q == 0 || s[q - 1] == c)
    ensures FreeSuffix(Last(SplitFrom(s, c, q)), s, c)
    decreases |s| - q
  {
    var i := IndexFrom(s, c, q);
    if i == |s| {
      IndexFromFree(s, c, q);
      assert Last(SplitFrom(s, c, q)) == s[q..];
    } else {
      LastPieceFrom(s, c, i + 1);
      LastOfCons(s[q..i], SplitFrom(s, c, i + 1));
    }
  }

  lemma LastPiece(s: string, c: char)
    ensures FreeSuffix(Last(Split(s, c)), s, c)
  {
    LastPieceFrom(s, c, 0);
  }

  lemma LastOfCons<T>(x: T, xs: seq<T>)
    requires |xs| >= 1
    ensures Last([x] + xs) == Last(xs)
  {
  }

  /** Text without the separator is a single piece. */
  lemma SplitWhole(s: string, c: char)
    requires c !in s
    ensures Split(s, c) == [s]
  {
    assert s[0..|s|] == s;
    IndexFromAt(s, c, 0, |s|);
  }

  // Re-bracketing. The lemma below states nothing about `str.split`: it
  // regroups a concatenation so that SplitFromJoin stays within the
  // solver's budget.

  lemma ConsOfParts<T>(xs: seq<T>, x: T, rest: seq<T>, parts: seq<T>)
    requires |parts| >= 1 && xs == [x] + rest && x == parts[0] && rest == parts[1..]
    ensures xs == parts
  {
  }
}

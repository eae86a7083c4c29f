/**
 * A backtracking matcher for the small fragment of Python's `re` syntax used
 * by the annotation parser: character classes, a single character, a greedy
 * `+`, and `$`; together with `re.findall` of a `^`-anchored pattern compiled
 * with `re.MULTILINE`.
 *
 * Match tries alternatives in the order the regular-expression engine does
 * (a greedy `+` first takes the longest run and then gives back one
 * character at a time), so the pieces it returns are the ones Python's
 * capture groups would see.
 */
module Regex {
  import opened Wrappers
  import opened Text

  /** `\d`, `\w` (both read as ASCII), `.` without DOTALL, and a literal character. */
  datatype CharClass = Digit | WordChar | AnyButNewline | Literal(c: char)

  /** `k`, `k+` (greedy) and `$` under MULTILINE. */
  datatype Atom = Once(k: CharClass) | Greedy(k: CharClass) | LineEnd

  predicate IsDigit(ch: char)
  {
    '0' <= ch <= '9'
  }

  predicate InClass(k: CharClass, ch: char)
  {
    match k
    case Digit => IsDigit(ch)
    case WordChar => 'a' <= ch <= 'z' || 'A' <= ch <= 'Z' || IsDigit(ch) || ch == '_'
    case AnyButNewline => ch != '\n'
    case Literal(c) => ch == c
  }

  /** What one atom accepts as its own piece, `after` being the text that follows it. */
  predicate Accepts(a: Atom, piece: string, after: string)
  {
    match a
    case Once(k) => |piece| == 1 && InClass(k, piece[0])
    case Greedy(k) => |piece| >= 1 && forall j :: 0 <= j < |piece| ==> InClass(k, piece[j])
    case LineEnd => piece == [] && (after == [] || after[0] == '\n')
  }

  /** `ps` cuts a prefix of `s` into one piece per atom of `p`, each accepted by its atom. */
  predicate Fits(p: seq<Atom>, s: string, ps: seq<string>)
    decreases |p|
  {
    |ps| == |p| &&
    (p == [] ||
     (IsPrefix(ps[0], s) &&
      Accepts(p[0], ps[0], s[|ps[0]|..]) &&
      Fits(p[1..], s[|ps[0]|..], ps[1..])))
  }

  /** The text the pieces cover, in order. */
  function Concat(ps: seq<string>): string
  {
    if ps == [] then [] else ps[0] + Concat(ps[1..])
  }

  /** Length of the longest prefix of `s` in class `k`. */
  function RunLength(k: CharClass, s: string): (n: nat)
    ensures n <= |s|
    ensures forall j :: 0 <= j < n ==> InClass(k, s[j])
    ensures n < |s| ==> !InClass(k, s[n])
  {
    if s != [] && InClass(k, s[0]) then 1 + RunLength(k, s[1..]) else 0
  }

  /**
   * The engine's first successful way of matching `p` at the start of `s`,
   * as one piece per atom.
   */
  function Match(p: seq<Atom>, s: string): Option<seq<string>>
    decreases |p|, 1, 0
  {
    if p == [] then Some([])
    else
      match p[0]
      case Once(k) =>
        if s != [] && InClass(k, s[0]) then
          match Match(p[1..], s[1..])
          case Some(ps) => Some([s[..1]] + ps)
          case None => None
        else None
      case Greedy(k) =>
        TryGreedy(k, p[1..], s, RunLength(k, s))
      case LineEnd =>
        if s == [] || s[0] == '\n' then
          match Match(p[1..], s)
          case Some(ps) => Some([[]] + ps)
          case None => None
        else None
  }

  /** Backtracking over `k+`: give it `n` characters, then `n - 1`, ... down to one. */
  function TryGreedy(k: CharClass, rest: seq<Atom>, s: string, n: nat): Option<seq<string>>
    requires n <= RunLength(k, s)
    decreases |rest| + 1, 0, n
  {
    if n == 0 then None
    else
      match Match(rest, s[n..])
      case Some(ps) => Some([s[..n]] + ps)
      case None => TryGreedy(k, rest, s, n - 1)
  }

  /** What the engine reports is a fit: the pieces it returns cut the text as the pattern says. */
  lemma {:induction false} MatchSound(p: seq<Atom>, s: string)
    ensures Match(p, s).Some? ==> Fits(p, s, Match(p, s).value)
    decreases |p|, 1, 0
  {
    if p != [] && Match(p, s).Some? {
      var rest := p[1..];
      assert p == [p[0]] + rest;
      match p[0]
      case Once(k) =>
        var ps := Match(rest, s[1..]).value;
        MatchSound(rest, s[1..]);
        FitsCons(p[0], rest, s, s[..1], ps);
      case Greedy(k) =>
        TryGreedySound(k, rest, s, RunLength(k, s));
      case LineEnd =>
        var ps := Match(rest, s).value;
        MatchSound(rest, s);
        FitsCons(p[0], rest, s, [], ps);
    }
  }

  lemma {:induction false} TryGreedySound(k: CharClass, rest: seq<Atom>, s: string, n: nat)
    requires n <= RunLength(k, s)
    ensures var r := TryGreedy(k, rest, s, n);
      r.Some? ==> Fits([Greedy(k)] + rest, s, r.value)
    decreases |rest| + 1, 0, n
  {
    if n > 0 {
      if Match(rest, s[n..]).None? {
        TryGreedySound(k, rest, s, n - 1);
      } else {
        var ps := Match(rest, s[n..]).value;
        assert TryGreedy(k, rest, s, n) == Some([s[..n]] + ps);
        MatchSound(rest, s[n..]);
        assert Accepts(Greedy(k), s[..n], s[n..]);
        FitsCons(Greedy(k), rest, s, s[..n], ps);
      }
    }
  }

  /** A fit of the rest after an accepted first piece is a fit of the whole pattern. */
  lemma FitsCons(a: Atom, rest: seq<Atom>, s: string, piece: string, ps: seq<string>)
    requires IsPrefix(piece, s) && Accepts(a, piece, s[|piece|..])
    requires Fits(rest, s[|piece|..], ps)
    ensures Fits([a] + rest, s, [piece] + ps)
  {
    assert ([a] + rest)[1..] == rest;
    assert ([piece] + ps)[1..] == ps;
  }

  /** One piece per atom. */
  lemma MatchLength(p: seq<Atom>, s: string)
    ensures Match(p, s).Some? ==> |Match(p, s).value| == |p|
  {
    MatchSound(p, s);
  }

  /** The engine finds a match whenever one exists. */
  lemma {:induction false} MatchComplete(p: seq<Atom>, s: string, ps: seq<string>)
    requires Fits(p, s, ps)
    ensures Match(p, s).Some?
    decreases |p|
  {
    if p != [] {
      var n := |ps[0]|;
      MatchComplete(p[1..], s[n..], ps[1..]);
      match p[0]
      case Once(k) =>
        assert s[..1] == ps[0];
      case Greedy(k) =>
        assert s[..n] == ps[0];
        RunLengthCovers(k, s, n);
        TryGreedyComplete(k, p[1..], s, RunLength(k, s), n);
      case LineEnd =>
    }
  }

  lemma {:induction false} TryGreedyComplete(k: CharClass, rest: seq<Atom>, s: string, n: nat, m: nat)
    requires 1 <= m <= n <= RunLength(k, s)
    requires Match(rest, s[m..]).Some?
    ensures TryGreedy(k, rest, s, n).Some?
    decreases n
  {
    if n > m && Match(rest, s[n..]).None? {
      TryGreedyComplete(k, rest, s, n - 1, m);
    }
  }

  /** A run of `n` characters of class `k` at the start lies within the longest one. */
  lemma {:induction false} RunLengthCovers(k: CharClass, s: string, n: nat)
    requires n <= |s|
    requires forall j :: 0 <= j < n ==> InClass(k, s[j])
    ensures n <= RunLength(k, s)
    decreases n
  {
    if n > 0 {
      assert InClass(k, s[0]);
      RunLengthCovers(k, s[1..], n - 1);
    }
  }

  /** Whether a match exists is exactly what the engine reports. */
  lemma MatchIffFits(p: seq<Atom>, s: string)
    ensures Match(p, s).Some? <==> exists ps :: Fits(p, s, ps)
  {
    if Match(p, s).Some? {
      MatchSound(p, s);
      var w := Match(p, s).value;
      assert Fits(p, s, w);
      assert exists ps :: Fits(p, s, ps);
    } else if exists ps :: Fits(p, s, ps) {
      var ps :| Fits(p, s, ps);
      MatchComplete(p, s, ps);
    }
  }

  /**
   * A greedy `k+` keeps the longest run after which the rest of the pattern
   * still fits: no longer run of `k` characters leaves a text the rest fits.
   */
  lemma GreedyLongest(k: CharClass, rest: seq<Atom>, s: string, ps: seq<string>, m: nat)
    requires Match([Greedy(k)] + rest, s) == Some(ps)
    requires |ps| >= 1 && |ps[0]| < m <= |s|
    requires forall j :: 0 <= j < m ==> InClass(k, s[j])
    ensures forall qs :: !Fits(rest, s[m..], qs)
  {
    var p := [Greedy(k)] + rest;
    assert p[0] == Greedy(k) && p[1..] == rest;
    assert Match(p, s) == TryGreedy(k, rest, s, RunLength(k, s));
    RunLengthCovers(k, s, m);
    TryGreedyLongest(k, rest, s, RunLength(k, s));
    forall qs | Fits(rest, s[m..], qs) ensures false {
      MatchComplete(rest, s[m..], qs);
    }
  }

  /** Backtracking from `n` down stops at the longest length the rest matches after. */
  lemma {:induction false} TryGreedyLongest(k: CharClass, rest: seq<Atom>, s: string, n: nat)
    requires n <= RunLength(k, s)
    requires TryGreedy(k, rest, s, n).Some?
    ensures var r := TryGreedy(k, rest, s, n).value;
      |r| >= 1 && 1 <= |r[0]| <= n
      && forall m :: |r[0]| < m <= n ==> Match(rest, s[m..]).None?
    decreases n
  {
    if Match(rest, s[n..]).None? {
      assert TryGreedy(k, rest, s, n) == TryGreedy(k, rest, s, n - 1);
      TryGreedyLongest(k, rest, s, n - 1);
      var r := TryGreedy(k, rest, s, n - 1).value;
      forall m | |r[0]| < m <= n ensures Match(rest, s[m..]).None? {
        if m < n {
          assert |r[0]| < m <= n - 1;
        }
      }
    } else {
      var ps := Match(rest, s[n..]).value;
      assert TryGreedy(k, rest, s, n) == Some([s[..n]] + ps);
    }
  }

  /** The pieces of a fit spell out a prefix of the text. */
  lemma {:induction false} FitsPrefix(p: seq<Atom>, s: string, ps: seq<string>)
    requires Fits(p, s, ps)
    ensures IsPrefix(Concat(ps), s)
    decreases |p|
  {
    if p != [] {
      var n := |ps[0]|;
      FitsPrefix(p[1..], s[n..], ps[1..]);
      var tail := Concat(ps[1..]);
      assert Concat(ps) == ps[0] + tail;
      assert s[..n + |tail|] == s[..n] + s[n..][..|tail|];
    }
  }

  /** A fit of a pattern that ends with `$`, on text without line breaks, covers the whole text. */
  lemma {:induction false} FitsWholeLine(p: seq<Atom>, s: string, ps: seq<string>)
    requires Fits(p, s, ps)
    requires |p| > 0 && Last(p) == LineEnd
    requires '\n' !in s
    ensures Concat(ps) == s
    decreases |p|
  {
    var n := |ps[0]|;
    if |p| == 1 {
      assert ps == [[]];
      assert s[n..] == s;
      assert Concat(ps) == [] + Concat([]);
    } else {
      FitsWholeLine(p[1..], s[n..], ps[1..]);
      assert Concat(ps) == ps[0] + Concat(ps[1..]);
      assert s == s[..n] + s[n..];
    }
  }

  /** The pieces of a fit are accepted by their atoms, whatever follows them. */
  predicate PieceOk(a: Atom, piece: string)
  {
    match a
    case Once(k) => |piece| == 1 && InClass(k, piece[0])
    case Greedy(k) => |piece| >= 1 && forall j :: 0 <= j < |piece| ==> InClass(k, piece[j])
    case LineEnd => piece == []
  }

  predicate Shaped(p: seq<Atom>, ps: seq<string>)
  {
    |ps| == |p| && forall j :: 0 <= j < |p| ==> PieceOk(p[j], ps[j])
  }

  lemma {:induction false} FitsShaped(p: seq<Atom>, s: string, ps: seq<string>)
    requires Fits(p, s, ps)
    ensures Shaped(p, ps)
    decreases |p|
  {
    if p != [] {
      FitsShaped(p[1..], s[|ps[0]|..], ps[1..]);
      forall j | 0 <= j < |p| ensures PieceOk(p[j], ps[j]) {
        if j > 0 {
          assert p[j] == p[1..][j - 1] && ps[j] == ps[1..][j - 1];
        }
      }
    }
  }

  /**
   * A fit on a line of a pattern ending in `k+$` covers the whole line, so
   * the line's last character is in class `k`.
   */
  lemma FitsEndInClass(p: seq<Atom>, s: string, ps: seq<string>, k: CharClass)
    requires Fits(p, s, ps)
    requires |p| >= 2 && p[|p| - 2] == Greedy(k) && p[|p| - 1] == LineEnd
    requires '\n' !in s
    ensures |s| >= 1 && InClass(k, s[|s| - 1])
  {
    var n := |p|;
    FitsWholeLine(p, s, ps);
    FitsShaped(p, s, ps);
    assert PieceOk(p[n - 2], ps[n - 2]) && PieceOk(p[n - 1], ps[n - 1]);
    ConcatEndsWith(ps, n - 2);
    assert InClass(k, Last(ps[n - 2]));
  }

  lemma {:induction false} ConcatEndsWith(ps: seq<string>, j: nat)
    requires j < |ps| && |ps[j]| >= 1
    requires forall k :: j < k < |ps| ==> ps[k] == []
    ensures |Concat(ps)| >= 1 && Last(Concat(ps)) == Last(ps[j])
    decreases |ps|
  {
    if j > 0 {
      ConcatEndsWith(ps[1..], j - 1);
      assert Concat(ps) == ps[0] + Concat(ps[1..]);
    } else {
      ConcatEmpty(ps[1..]);
      assert Concat(ps) == ps[0] + Concat(ps[1..]);
    }
  }

  lemma {:induction false} ConcatEmpty(ps: seq<string>)
    requires forall k :: 0 <= k < |ps| ==> ps[k] == []
    ensures Concat(ps) == []
    decreases |ps|
  {
    if ps != [] {
      ConcatEmpty(ps[1..]);
    }
  }

  /** The run of class `k` at the start of `run + s` is exactly `run` when `s` does not continue it. */
  lemma {:induction false} RunLengthOf(k: CharClass, run: string, s: string)
    requires forall j :: 0 <= j < |run| ==> InClass(k, run[j])
    requires s == [] || !InClass(k, s[0])
    ensures RunLength(k, run + s) == |run|
    decreases |run|
  {
    if run == [] {
      assert run + s == s;
    } else {
      assert (run + s)[1..] == run[1..] + s;
      RunLengthOf(k, run[1..], s);
    }
  }

  /** `$` at the end of the text. */
  lemma MatchLineEndAtEnd()
    ensures Match([LineEnd], []) == Some([[]])
  {
    assert [LineEnd][1..] == [];
    var none: seq<string> := [];
    assert [[]] + none == [[]];
  }

  /** Matching a single-character atom, then the rest. */
  lemma MatchOnce(k: CharClass, rest: seq<Atom>, c: char, s: string, ps: seq<string>)
    requires InClass(k, c) && Match(rest, s) == Some(ps)
    ensures Match([Once(k)] + rest, [c] + s) == Some([[c]] + ps)
  {
    assert ([Once(k)] + rest)[1..] == rest;
    assert ([c] + s)[1..] == s;
  }

  /** Matching `k+` when the rest matches right after the longest run. */
  lemma MatchGreedy(k: CharClass, rest: seq<Atom>, run: string, s: string, ps: seq<string>)
    requires |run| >= 1 && forall j :: 0 <= j < |run| ==> InClass(k, run[j])
    requires s == [] || !InClass(k, s[0])
    requires Match(rest, s) == Some(ps)
    ensures Match([Greedy(k)] + rest, run + s) == Some([run] + ps)
  {
    RunLengthOf(k, run, s);
    assert ([Greedy(k)] + rest)[1..] == rest;
    assert (run + s)[|run|..] == s && (run + s)[..|run|] == run;
  }

  /** No atom of the pattern can consume a line break. */
  predicate NewlineFree(p: seq<Atom>)
  {
    forall j :: 0 <= j < |p| ==> !p[j].LineEnd? ==> !InClass(p[j].k, '\n')
  }

  /** The first atom consumes a character, so every match is non-empty. */
  predicate StartsWithCharacter(p: seq<Atom>)
  {
    |p| > 0 && !p[0].LineEnd?
  }

  lemma FitsNonEmpty(p: seq<Atom>, s: string, ps: seq<string>)
    requires StartsWithCharacter(p)
    requires Fits(p, s, ps)
    ensures |Concat(ps)| >= 1
  {
    assert Concat(ps) == ps[0] + Concat(ps[1..]);
  }

  lemma {:induction false} RunLengthLineLocal(k: CharClass, line: string, rest: string)
    requires !InClass(k, '\n')
    requires '\n' !in line
    requires rest == [] || rest[0] == '\n'
    ensures RunLength(k, line + rest) == RunLength(k, line)
    decreases |line|
  {
    if line == [] {
      assert line + rest == rest;
    } else {
      assert (line + rest)[1..] == line[1..] + rest;
      assert line[0] in line;
      RunLengthLineLocal(k, line[1..], rest);
    }
  }

  /**
   * Since no atom consumes a line break, matching at the start of a line only
   * ever looks at that line: what follows the line break does not matter.
   */
  lemma {:induction false} MatchLineLocal(p: seq<Atom>, line: string, rest: string)
    requires NewlineFree(p)
    requires '\n' !in line
    requires rest == [] || rest[0] == '\n'
    ensures Match(p, line + rest) == Match(p, line)
    decreases |p|, 1, 0
  {
    var s := line + rest;
    if p != [] {
      assert NewlineFree(p[1..]) by {
        forall j | 0 <= j < |p[1..]| ensures !p[1..][j].LineEnd? ==> !InClass(p[1..][j].k, '\n') {
          assert p[1..][j] == p[j + 1];
        }
      }
      match p[0]
      case Once(k) =>
        assert !InClass(k, '\n') by { assert !p[0].LineEnd?; }
        if line != [] {
          assert s[0] == line[0] && s[1..] == line[1..] + rest;
          assert line[0] in line;
          MatchLineLocal(p[1..], line[1..], rest);
          assert s[..1] == line[..1];
        } else {
          assert s == rest;
        }
      case Greedy(k) =>
        assert !InClass(k, '\n') by { assert !p[0].LineEnd?; }
        RunLengthLineLocal(k, line, rest);
        TryGreedyLineLocal(k, p[1..], line, rest, RunLength(k, line));
      case LineEnd =>
        if line != [] { assert line[0] in line; assert s[0] == line[0]; }
        else { assert s == rest; }
        MatchLineLocal(p[1..], line, rest);
    }
  }

  lemma {:induction false} TryGreedyLineLocal(k: CharClass, ra: seq<Atom>, line: string, rest: string, n: nat)
    requires NewlineFree(ra)
    requires !InClass(k, '\n')
    requires '\n' !in line
    requires rest == [] || rest[0] == '\n'
    requires n <= RunLength(k, line) == RunLength(k, line + rest)
    ensures TryGreedy(k, ra, line + rest, n) == TryGreedy(k, ra, line, n)
    decreases |ra| + 1, 0, n
  {
    if n > 0 {
      var s := line + rest;
      assert s[n..] == line[n..] + rest;
      assert s[..n] == line[..n];
      MatchLineLocal(ra, line[n..], rest);
      TryGreedyLineLocal(k, ra, line, rest, n - 1);
    }
  }

  /** `^` under MULTILINE: the start of the text or just after a line break. */
  predicate AtLineStart(t: string, q: nat)
    requires q <= |t|
  {
    q == 0 || t[q - 1] == '\n'
  }

  /** A matcher anchored at the start of a text: the pieces of its match there, if any. */
  type Matcher = string -> Option<seq<string>>

  /** The engine for `p`, as a matcher. */
  function Engine(p: seq<Atom>): Matcher
  {
    s => Match(p, s)
  }

  /** Every match covers a non-empty prefix of the text. */
  ghost predicate Advances(m: Matcher)
  {
    forall s :: m(s).Some? ==> 1 <= |Concat(m(s).value)| <= |s|
  }

  /** What the matcher reports at the start of a line does not depend on the lines after it. */
  ghost predicate LineLocal(m: Matcher)
  {
    forall line, rest :: '\n' !in line && (rest == [] || rest[0] == '\n') ==> m(line + rest) == m(line)
  }

  /** Every match has one piece per atom of `p`, each accepted by its atom. */
  ghost predicate ShapedBy(p: seq<Atom>, m: Matcher)
  {
    forall s :: m(s).Some? ==> Shaped(p, m(s).value)
  }

  /** A pattern that starts by consuming a character only matches non-empty prefixes. */
  lemma EngineAdvances(p: seq<Atom>)
    requires StartsWithCharacter(p)
    ensures Advances(Engine(p))
  {
    forall s | Engine(p)(s).Some? ensures 1 <= |Concat(Engine(p)(s).value)| <= |s| {
      var ps := Match(p, s).value;
      MatchSound(p, s);
      FitsPrefix(p, s, ps);
      FitsNonEmpty(p, s, ps);
    }
  }

  lemma EngineShaped(p: seq<Atom>)
    ensures ShapedBy(p, Engine(p))
  {
    forall s | Engine(p)(s).Some? ensures Shaped(p, Engine(p)(s).value) {
      MatchSound(p, s);
      FitsShaped(p, s, Match(p, s).value);
    }
  }

  lemma EngineLineLocal(p: seq<Atom>)
    requires NewlineFree(p)
    ensures LineLocal(Engine(p))
  {
    forall line: string, rest: string | '\n' !in line && (rest == [] || rest[0] == '\n')
      ensures Engine(p)(line + rest) == Engine(p)(line)
    {
      MatchLineLocal(p, line, rest);
    }
  }

  /**
   * `re.findall` of a `^`-anchored pattern under `re.MULTILINE`, scanning `t`
   * from position `q`: the search tries every position in turn, and after a
   * match goes on from where the match ended.
   */
  function FindAll(m: Matcher, t: string, q: nat): seq<seq<string>>
    requires Advances(m)
    requires q <= |t| + 1
    decreases |t| + 1 - q
  {
    if q > |t| then []
    else if AtLineStart(t, q) && m(t[q..]).Some? then
      [m(t[q..]).value] + FindAll(m, t, q + |Concat(m(t[q..]).value)|)
    else FindAll(m, t, q + 1)
  }

  /** Every match the scan reports is one the matcher gives, so it has the matcher's shape. */
  lemma {:induction false} FindAllShaped(p: seq<Atom>, m: Matcher, t: string, q: nat)
    requires Advances(m) && ShapedBy(p, m)
    requires q <= |t| + 1
    ensures forall j :: 0 <= j < |FindAll(m, t, q)| ==> Shaped(p, FindAll(m, t, q)[j])
    decreases |t| + 1 - q
  {
    if q <= |t| {
      if AtLineStart(t, q) && m(t[q..]).Some? {
        var ps := m(t[q..]).value;
        FindAllTake(m, t, q, ps);
        FindAllShaped(p, m, t, q + |Concat(ps)|);
        ShapedCons(p, ps, FindAll(m, t, q + |Concat(ps)|));
      } else {
        FindAllSkip(m, t, q);
        FindAllShaped(p, m, t, q + 1);
      }
    }
  }

  lemma ShapedCons(p: seq<Atom>, ps: seq<string>, later: seq<seq<string>>)
    requires Shaped(p, ps)
    requires forall j :: 0 <= j < |later| ==> Shaped(p, later[j])
    ensures var found := [ps] + later;
      forall j :: 0 <= j < |found| ==> Shaped(p, found[j])
  {
  }

  /** A position that is not a line start, or where the pattern fails, adds nothing. */
  lemma FindAllSkip(m: Matcher, t: string, q: nat)
    requires Advances(m)
    requires q <= |t|
    requires !AtLineStart(t, q) || m(t[q..]).None?
    ensures FindAll(m, t, q) == FindAll(m, t, q + 1)
  {
  }

  /** A match at a line start is reported, and the scan resumes where it ended. */
  lemma FindAllTake(m: Matcher, t: string, q: nat, ps: seq<string>)
    requires Advances(m)
    requires q <= |t| && AtLineStart(t, q) && m(t[q..]) == Some(ps)
    ensures 1 <= |Concat(ps)| <= |t| - q
    ensures FindAll(m, t, q) == [ps] + FindAll(m, t, q + |Concat(ps)|)
  {
  }

  /** What the matcher makes of each line on its own, skipping lines with no match. */
  function MatchLines(m: Matcher, lines: seq<string>): seq<seq<string>>
  {
    if lines == [] then [] else LineMatch(m, lines[0]) + MatchLines(m, lines[1..])
  }

  /** The match of one line, as a list of zero or one matches. */
  function LineMatch(m: Matcher, line: string): seq<seq<string>>
  {
    match m(line)
    case Some(ps) => [ps]
    case None => []
  }

  /** From inside a line, the scan reaches the next line start without finding anything. */
  lemma {:induction false} SkipRestOfLine(m: Matcher, t: string, q: nat, e: nat, j: nat)
    requires Advances(m)
    requires q < j <= e <= |t|
    requires '\n' !in t[q..e]
    ensures FindAll(m, t, j) == (if e == |t| then [] else FindAll(m, t, e + 1))
    decreases e - j
  {
    assert !AtLineStart(t, j) by { assert t[j - 1] == t[q..e][j - 1 - q]; }
    FindAllSkip(m, t, j);
    if j < e {
      SkipRestOfLine(m, t, q, e, j + 1);
    }
  }

  /** Where the line that starts at `q` ends: the next line break, or the end of the text. */
  function EndOfLine(t: string, q: nat): (e: nat)
    requires q <= |t|
    ensures q <= e <= |t|
    ensures e < |t| ==> t[e] == '\n'
  {
    IndexFrom(t, '\n', q)
  }

  /** The scan from the end of a line's match (or of an unmatched line) to the next line start. */
  lemma AfterLine(m: Matcher, t: string, q: nat, j: nat)
    requires Advances(m)
    requires q <= |t| && AtLineStart(t, q)
    requires q < j <= EndOfLine(t, q) + 1 && j <= |t| + 1
    requires j == EndOfLine(t, q) + 1 ==> q == EndOfLine(t, q)
    ensures var e := EndOfLine(t, q);
      FindAll(m, t, j) == (if e == |t| then [] else FindAll(m, t, e + 1))
  {
    var e := EndOfLine(t, q);
    if j <= e {
      IndexFromFree(t, '\n', q);
      SkipRestOfLine(m, t, q, e, j);
    }
  }

  /** One step of the scan at a line start: the line's own match, if any, then the next line. */
  lemma ScanLine(m: Matcher, t: string, q: nat)
    requires Advances(m) && LineLocal(m)
    requires q <= |t| && AtLineStart(t, q)
    ensures var e := EndOfLine(t, q);
      FindAll(m, t, q) == LineMatch(m, t[q..e]) + (if e == |t| then [] else FindAll(m, t, e + 1))
  {
    var e := EndOfLine(t, q);
    var line := t[q..e];
    FirstLineDecides(m, t, q);
    if m(line).Some? {
      ScanMatchedLine(m, t, q, m(line).value);
    } else {
      FindAllSkip(m, t, q);
      AfterLine(m, t, q, q + 1);
    }
  }

  /** At a line start, a line-local matcher sees only the line. */
  lemma FirstLineDecides(m: Matcher, t: string, q: nat)
    requires LineLocal(m)
    requires q <= |t|
    ensures m(t[q..]) == m(t[q..EndOfLine(t, q)])
  {
    var e := EndOfLine(t, q);
    var line, rest := t[q..e], t[e..];
    assert t[q..] == line + rest;
    IndexFromFree(t, '\n', q);
    assert '\n' !in line && (rest == [] || rest[0] == '\n');
  }

  /** The matched case of `ScanLine`: the scan records the match and resumes after it. */
  lemma ScanMatchedLine(m: Matcher, t: string, q: nat, ps: seq<string>)
    requires Advances(m)
    requires q <= |t| && AtLineStart(t, q)
    requires m(t[q..]) == Some(ps)
    requires m(t[q..EndOfLine(t, q)]) == Some(ps)
    ensures var e := EndOfLine(t, q);
      FindAll(m, t, q) == [ps] + (if e == |t| then [] else FindAll(m, t, e + 1))
  {
    var e := EndOfLine(t, q);
    var j := q + |Concat(ps)|;
    FindAllTake(m, t, q, ps);
    assert |Concat(ps)| <= |t[q..e]| by { AdvancesOn(m, t[q..e]); }
    AfterLine(m, t, q, j);
  }

  lemma AdvancesOn(m: Matcher, s: string)
    requires Advances(m) && m(s).Some?
    ensures 1 <= |Concat(m(s).value)| <= |s|
  {
  }

  /**
   * `findall` of a `^`-anchored, line-local matcher under MULTILINE yields,
   * in order, exactly one match per line that matches on its own.
   */
  lemma {:induction false} FindAllFromLineStart(m: Matcher, t: string, q: nat)
    requires Advances(m) && LineLocal(m)
    requires q <= |t| && AtLineStart(t, q)
    ensures FindAll(m, t, q) == MatchLines(m, SplitFrom(t, '\n', q))
    decreases |t| - q
  {
    var e := EndOfLine(t, q);
    ScanLine(m, t, q);
    LinesStep(m, t, q);
    if e < |t| {
      assert AtLineStart(t, e + 1);
      FindAllFromLineStart(m, t, e + 1);
    }
  }

  /** The lines from a line start: the first line, then the lines after its break. */
  lemma LinesStep(m: Matcher, t: string, q: nat)
    requires q <= |t|
    ensures var e := EndOfLine(t, q);
      MatchLines(m, SplitFrom(t, '\n', q))
        == LineMatch(m, t[q..e]) + (if e == |t| then [] else MatchLines(m, SplitFrom(t, '\n', e + 1)))
  {
    var e := EndOfLine(t, q);
    var lines := SplitFrom(t, '\n', q);
    if e < |t| {
      var rest := SplitFrom(t, '\n', e + 1);
      SplitFromStep(t, '\n', q);
      MatchLinesCons(m, lines, t[q..e], rest);
    } else {
      MatchLinesCons(m, lines, t[q..e], []);
      ScanResult(MatchLines(m, lines), LineMatch(m, t[q..e]), MatchLines(m, []), [], LineMatch(m, t[q..e]) + []);
    }
  }

  lemma MatchLinesCons(m: Matcher, lines: seq<string>, line: string, rest: seq<string>)
    requires lines == [line] + rest
    ensures MatchLines(m, lines) == LineMatch(m, line) + MatchLines(m, rest)
  {
    assert lines[1..] == rest;
  }

  lemma FindAllByLines(m: Matcher, t: string)
    requires Advances(m) && LineLocal(m)
    ensures FindAll(m, t, 0) == MatchLines(m, Split(t, '\n'))
  {
    FindAllFromLineStart(m, t, 0);
  }

  // Re-bracketing. The lemma below states nothing about `re.findall`: it
  // regroups the concatenated match lists so that LinesStep, on which
  // FindAllByLines rests, stays within the solver's budget.

  lemma ScanResult(found: seq<seq<string>>, first: seq<seq<string>>, later: seq<seq<string>>,
                   laterLines: seq<seq<string>>, lines: seq<seq<string>>)
    requires found == first + later && later == laterLines && lines == first + laterLines
    ensures found == lines
  {
  }
}

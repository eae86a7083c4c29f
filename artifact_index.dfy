/**
 * Catalog entries of the TUH EEG artifact corpus
 * (pyeeglab/dataset/tuh_eeg_artifact/tuh_eeg_artifact_index.py): the File row
 * built from a recording's path, the path-derived part of its Metadata row,
 * and the Event rows parsed from the `.tse` annotation sidecar.
 *
 * `uuid5(NAMESPACE_X500, .)` is a parameter `nameId` (any deterministic
 * function of the name), `uuid4()` is a parameter `uuid4` giving the value of
 * its i-th call, and reading the sidecar is a parameter `read` from a path to
 * its text, `None` when the file cannot be opened.
 */
module ArtifactIndex {
  import opened Wrappers
  import opened Text
  import opened Regex

  /** `os.path.sep` on POSIX. */
  const Sep: char := '/'

  datatype File = File(id: string, extension: string, path: string)

  /** A `Raw` handle: the id it was built with and the absolute path it opens. */
  datatype Raw = Raw(id: string, path: string)

  /** The path-derived columns of a Metadata row. */
  datatype Metadata = Metadata(fileId: string, channelsReference: string)

  datatype Event = Event(id: string, fileId: string, begin: real, end: real, duration: real, eventLabel: string)

  /** The four capture groups of one annotation line, as `re.findall` returns them. */
  datatype TseMatch = TseMatch(begin: string, end: string, eventLabel: string, confidence: string)

  datatype IndexError =
    | AnnotationUnreadable(path: string)   // `open(path, 'r')` raises
    | NotAFloat(text: string)              // `float(text)` raises ValueError

  /** `posixpath.join(a, b)`: an absolute `b` replaces `a`; a separator is added only when needed. */
  function PathJoin(a: string, b: string): (r: string)
    ensures IsSuffix(b, r)
    ensures (b == [] || b[0] != Sep) ==> IsPrefix(a, r)
    ensures (b != [] && b[0] == Sep) ==> r == b
  {
    if b != [] && b[0] == Sep then b
    else if a == [] || a[|a| - 1] == Sep then a + b
    else a + [Sep] + b
  }

  /**
   * `_get_file`: drops the first `|root|` characters of `path` (whatever they
   * are), names the file by the rest, and takes the extension from the last
   * path segment.
   */
  function GetFile(root: string, path: string, nameId: string -> string): (f: File)
    ensures IsPrefix(root, path) ==> root + f.path == path
    ensures |root| <= |path| ==> path[..|root|] + f.path == path
    ensures |path| < |root| ==> f.path == []
    ensures f.id == nameId(f.path)
  {
    var rel := Drop(path, |root|);
    var meta := Split(rel, Sep);
    File(nameId(rel), Last(Split(Last(meta), '.')), rel)
  }

  /**
   * The extension is the longest dot-free suffix of the last path segment,
   * which is itself the longest separator-free suffix of the relative path:
   * without a dot, the whole segment.
   */
  lemma ExtensionOfLastSegment(root: string, path: string, nameId: string -> string)
    ensures var f := GetFile(root, path, nameId);
      var segment := Last(Split(f.path, Sep));
      FreeSuffix(segment, f.path, Sep) && FreeSuffix(f.extension, segment, '.')
  {
    var f := GetFile(root, path, nameId);
    var segment := Last(Split(f.path, Sep));
    LastPiece(f.path, Sep);
    assert f.extension == Last(Split(segment, '.'));
    LastPiece(segment, '.');
  }

  /**
   * The id depends on the relative path alone: any two roots and paths that
   * leave the same relative path give the same File row.
   */
  lemma FileDependsOnRelativePath(root1: string, path1: string, root2: string, path2: string, nameId: string -> string)
    requires Drop(path1, |root1|) == Drop(path2, |root2|)
    ensures GetFile(root1, path1, nameId) == GetFile(root2, path2, nameId)
  {
  }

  /** Only the root's length is used: the characters dropped are never compared with it. */
  lemma RootContentIgnored(root1: string, root2: string, path: string, nameId: string -> string)
    requires |root1| == |root2|
    ensures GetFile(root1, path, nameId) == GetFile(root2, path, nameId)
  {
  }

  /** The `Raw` handle `_get_record_metadata` and `_get_record_events` build for a file. */
  function OpenRaw(root: string, file: File): (raw: Raw)
    ensures raw.id == file.id
    ensures IsSuffix(file.path, raw.path)
  {
    Raw(file.id, PathJoin(root, file.path))
  }

  /**
   * The path-derived part of `_get_record_metadata`: the row is keyed by the
   * handle's id, and the channel reference is the first path segment.
   */
  function GetRecordMetadata(root: string, file: File): (m: Metadata)
    ensures m.fileId == file.id
    ensures IsPrefix(m.channelsReference, file.path) && Sep !in m.channelsReference
    ensures |m.channelsReference| == |file.path| || file.path[|m.channelsReference|] == Sep
    ensures m.channelsReference == [] <==> (file.path == [] || file.path[0] == Sep)
  {
    var meta := Split(file.path, Sep);
    FirstPiece(file.path, Sep);
    Metadata(OpenRaw(root, file).id, meta[0])
  }

  /** `raw.path[:-4] + '.tse'`: the last four characters give way to the annotation extension. */
  function SidecarPath(recordingPath: string): (p: string)
    ensures IsSuffix(".tse", p)
    ensures |recordingPath| >= 4 ==> |p| == |recordingPath| && p[..|p| - 4] == recordingPath[..|recordingPath| - 4]
    ensures |recordingPath| < 4 ==> p == ".tse"
  {
    DropLast(recordingPath, 4) + ".tse"
  }

  /** A recording named `stem` plus a four-character extension such as `.edf` has its sidecar at `stem.tse`. */
  lemma SidecarReplacesExtension(stem: string, ext: string)
    requires |ext| == 4
    ensures SidecarPath(stem + ext) == stem + ".tse"
  {
    assert (stem + ext)[..|stem|] == stem;
  }

  /** `^(\d+.\d+) (\d+.\d+) (\w+) (\d.\d+)$`, the dots unescaped. */
  const TsePattern: seq<Atom> := [
    Greedy(Digit), Once(AnyButNewline), Greedy(Digit), Once(Literal(' ')),
    Greedy(Digit), Once(AnyButNewline), Greedy(Digit), Once(Literal(' ')),
    Greedy(WordChar), Once(Literal(' ')),
    Once(Digit), Once(AnyButNewline), Greedy(Digit),
    LineEnd]

  lemma TsePatternLineLocal()
    ensures StartsWithCharacter(TsePattern) && NewlineFree(TsePattern)
  {
  }

  /** The capture groups, given one piece per atom of TsePattern. */
  function Groups(ps: seq<string>): TseMatch
    requires |ps| == |TsePattern|
  {
    TseMatch(ps[0] + ps[1] + ps[2], ps[4] + ps[5] + ps[6], ps[8], ps[10] + ps[11] + ps[12])
  }

  /**
   * `re.findall(pattern, annotations)` for the compiled MULTILINE pattern:
   * never more matches than the text has lines.
   */
  function TseFindAll(text: string): (r: seq<TseMatch>)
    ensures |r| <= |Split(text, '\n')|
  {
    TsePatternLineLocal();
    EngineAdvances(TsePattern);
    EngineShaped(TsePattern);
    EngineLineLocal(TsePattern);
    FindAllShaped(TsePattern, Engine(TsePattern), text, 0);
    FindAllByLines(Engine(TsePattern), text);
    GroupsOfMatchLines(Split(text, '\n'));
    GroupsOfLinesBound(Split(text, '\n'));
    GroupsOf(FindAll(Engine(TsePattern), text, 0))
  }

  predicate AllDigits(s: string)
  {
    forall j :: 0 <= j < |s| ==> IsDigit(s[j])
  }

  predicate AllWordChars(s: string)
  {
    forall j :: 0 <= j < |s| ==> InClass(WordChar, s[j])
  }

  /** Length of the longest all-digit prefix. */
  function FirstNonDigit(s: string): (k: nat)
    ensures k <= |s| && AllDigits(s[..k])
    ensures k < |s| ==> !IsDigit(s[k])
  {
    if s != [] && IsDigit(s[0]) then
      var k := FirstNonDigit(s[1..]);
      assert s[..k + 1] == [s[0]] + s[1..][..k];
      1 + k
    else 0
  }

  /**
   * What `\d+.\d+` lets through: at least three characters, digits, then
   * at most one other character with digits on both sides of it.
   */
  predicate NumberShaped(g: string)
  {
    var k := FirstNonDigit(g);
    |g| >= 3 && k >= 1 && (k == |g| || (k + 1 < |g| && AllDigits(g[k + 1..])))
  }

  predicate WellFormedMatch(m: TseMatch)
  {
    NumberShaped(m.begin) && NumberShaped(m.end) && |m.eventLabel| >= 1 && AllWordChars(m.eventLabel)
  }

  predicate AllWellFormed(ms: seq<TseMatch>)
  {
    forall j :: 0 <= j < |ms| ==> WellFormedMatch(ms[j])
  }

  function DigitValue(ch: char): nat
    requires IsDigit(ch)
  {
    ch as nat - '0' as nat
  }

  /** The value of a string of decimal digits. */
  function DigitsValue(s: string): nat
    requires AllDigits(s)
  {
    if s == [] then 0 else 10 * DigitsValue(s[..|s| - 1]) + DigitValue(s[|s| - 1])
  }

  function Pow10(n: nat): (r: nat)
    ensures r >= 1
  {
    if n == 0 then 1 else 10 * Pow10(n - 1)
  }

  /** The digits of a field that has a middle character, with that character taken out. */
  function Unmarked(g: string): (r: string)
    requires NumberShaped(g) && FirstNonDigit(g) < |g|
    ensures |r| == |g| - 1 && AllDigits(r)
  {
    var k := FirstNonDigit(g);
    assert AllDigits(g[k + 1..]);
    g[..k] + g[k + 1..]
  }

  /**
   * `d / p` as a real: multiplied back by `p` it gives `d`. With `p` a power
   * of ten, the value of a decimal field whose digits spell `d`.
   */
  function Ratio(d: nat, p: nat): (q: real)
    requires p >= 1
    ensures q >= 0.0 && q * p as real == d as real
  {
    d as real / p as real
  }

  /** `m` times ten to the power `e`, the value of `mEe`. */
  function Scientific(m: nat, e: nat): (v: real)
    ensures v >= 0.0
  {
    m as real * Pow10(e) as real
  }

  /** The characters `float()` accepts between two runs of digits: `.`, `_`, `e` and `E`. */
  predicate IsFloatMark(c: char)
  {
    c == '.' || c == '_' || c == 'e' || c == 'E'
  }

  /**
   * Python's `float()` on a number-shaped field, computed exactly: `None`
   * where it raises ValueError. Besides `.`, the middle character may be a
   * digit, an underscore between digits, or an exponent mark.
   */
  function FloatOfField(g: string): (r: Option<real>)
    requires NumberShaped(g)
    ensures r.Some? <==> FirstNonDigit(g) == |g| || IsFloatMark(g[FirstNonDigit(g)])
    ensures r.Some? ==> r.value >= 0.0
  {
    var k := FirstNonDigit(g);
    if k == |g| then
      assert g[..k] == g;
      Some(DigitsValue(g) as real)
    else
      var whole, mark, frac := g[..k], g[k], g[k + 1..];
      if mark == '.' then
        Some(Ratio(DigitsValue(Unmarked(g)), Pow10(|frac|)))
      else if mark == '_' then
        Some(DigitsValue(Unmarked(g)) as real)
      else if mark == 'e' || mark == 'E' then
        Some(Scientific(DigitsValue(whole), DigitsValue(frac)))
      else None
  }

  /** `float()` reads an all-digit field as its integer. */
  lemma FloatOfDigits(g: string)
    requires NumberShaped(g) && FirstNonDigit(g) == |g|
    ensures FloatOfField(g) == Some(DigitsValue(g) as real)
  {
    assert g[..FirstNonDigit(g)] == g;
  }

  /**
   * `float()` reads `whole.frac` so that the value, scaled by ten to the
   * number of digits after the point, is the integer the digits spell.
   */
  lemma FloatOfPoint(g: string)
    requires NumberShaped(g) && FirstNonDigit(g) < |g| && g[FirstNonDigit(g)] == '.'
    ensures FloatOfField(g) == Some(Ratio(DigitsValue(Unmarked(g)), Pow10(|g| - FirstNonDigit(g) - 1)))
  {
  }

  /** `float()` reads digits around an underscore as the digits without it. */
  lemma FloatOfUnderscore(g: string)
    requires NumberShaped(g) && FirstNonDigit(g) < |g| && g[FirstNonDigit(g)] == '_'
    ensures FloatOfField(g) == Some(DigitsValue(Unmarked(g)) as real)
  {
  }

  /** `float()` reads `mEe` and `mee` as `m` times ten to the power `e`. */
  lemma FloatOfExponent(g: string)
    requires NumberShaped(g) && FirstNonDigit(g) < |g| && (g[FirstNonDigit(g)] == 'e' || g[FirstNonDigit(g)] == 'E')
    ensures AllDigits(g[FirstNonDigit(g) + 1..])
    ensures FloatOfField(g) == Some(Scientific(DigitsValue(g[..FirstNonDigit(g)]), DigitsValue(g[FirstNonDigit(g) + 1..])))
  {
  }

  /** `float()` on a field the pattern let through; other strings never reach it (TseFindAllWellFormed). */
  function ParseFloat(g: string): (r: Option<real>)
    ensures r.Some? ==> NumberShaped(g) && r.value >= 0.0
  {
    if NumberShaped(g) then FloatOfField(g) else None
  }

  /** A parser of fields into numbers, `None` where it raises ValueError. */
  type FloatParser = string -> Option<real>

  /**
   * `[Event(...) for event in events]`, with `float` the parser of the begin
   * and end fields: the first field it rejects aborts the whole list.
   */
  function EventsFrom(fileId: string, ms: seq<TseMatch>, uuid4: nat -> string, i: nat, float: FloatParser)
    : (r: Result<seq<Event>, IndexError>)
    ensures r.Ok? ==> |r.value| == |ms|
    ensures r.Err? ==> r.error.NotAFloat?
    decreases |ms|
  {
    if ms == [] then Ok([])
    else
      var m := ms[0];
      match float(m.begin)
      case None => Err(NotAFloat(m.begin))
      case Some(begin) =>
        match float(m.end)
        case None => Err(NotAFloat(m.end))
        case Some(end) =>
          match EventsFrom(fileId, ms[1..], uuid4, i + 1, float)
          case Err(e) => Err(e)
          case Ok(rest) => Ok([Event(uuid4(i), fileId, begin, end, end - begin, m.eventLabel)] + rest)
  }

  lemma GroupsWellFormed(ps: seq<string>)
    requires Shaped(TsePattern, ps)
    ensures WellFormedMatch(Groups(ps))
  {
    assert PieceOk(TsePattern[0], ps[0]) && PieceOk(TsePattern[1], ps[1]) && PieceOk(TsePattern[2], ps[2]);
    assert PieceOk(TsePattern[4], ps[4]) && PieceOk(TsePattern[5], ps[5]) && PieceOk(TsePattern[6], ps[6]);
    assert PieceOk(TsePattern[8], ps[8]);
    NumberShapedFromPieces(ps[0], ps[1][0], ps[2]);
    assert ps[1] == [ps[1][0]];
    NumberShapedFromPieces(ps[4], ps[5][0], ps[6]);
    assert ps[5] == [ps[5][0]];
  }

  /** Digits, any one character, digits: the text of `\d+.\d+`. */
  lemma NumberShapedFromPieces(a: string, mark: char, b: string)
    requires |a| >= 1 && AllDigits(a) && |b| >= 1 && AllDigits(b)
    ensures NumberShaped(a + [mark] + b)
  {
    var g := a + [mark] + b;
    PrefixDigits(a, g);
    var k := FirstNonDigit(g);
    if !IsDigit(mark) {
      assert g[|a|] == mark;
      assert k == |a|;
      assert g[k + 1..] == b;
    } else {
      assert AllDigits(g);
      AllDigitsNoStop(g);
    }
  }

  lemma {:induction false} PrefixDigits(a: string, g: string)
    requires AllDigits(a) && IsPrefix(a, g)
    ensures FirstNonDigit(g) >= |a|
    decreases |a|
  {
    if a != [] {
      assert IsDigit(g[0]);
      assert a[1..] == g[1..][..|a| - 1];
      PrefixDigits(a[1..], g[1..]);
    }
  }

  lemma AllDigitsNoStop(g: string)
    requires AllDigits(g)
    ensures FirstNonDigit(g) == |g|
  {
  }

  lemma TseFindAllWellFormed(text: string)
    ensures AllWellFormed(TseFindAll(text))
  {
    TsePatternLineLocal();
    EngineAdvances(TsePattern);
    EngineShaped(TsePattern);
    var found := FindAll(Engine(TsePattern), text, 0);
    FindAllShaped(TsePattern, Engine(TsePattern), text, 0);
    forall j | 0 <= j < |found| ensures WellFormedMatch(Groups(found[j])) {
      GroupsWellFormed(found[j]);
    }
  }

  /** `_get_record_events`: the sidecar's path, its text, and one Event per match in text order. */
  function GetRecordEvents(root: string, file: File, read: string -> Option<string>, uuid4: nat -> string)
    : (r: Result<seq<Event>, IndexError>)
    ensures var path := SidecarPath(PathJoin(root, file.path));
      r == Err(AnnotationUnreadable(path)) <==> read(path).None?
    ensures var path := SidecarPath(PathJoin(root, file.path));
      read(path).Some? && r.Ok? ==> |r.value| == |TseFindAll(read(path).value)|
  {
    var raw := OpenRaw(root, file);
    var path := SidecarPath(raw.path);
    match read(path)
    case None => Err(AnnotationUnreadable(path))
    case Some(text) => EventsFrom(raw.id, TseFindAll(text), uuid4, 0, ParseFloat)
  }

  /** Every begin and end field parses. */
  predicate AllFloats(ms: seq<TseMatch>, float: FloatParser)
  {
    forall j :: 0 <= j < |ms| ==> float(ms[j].begin).Some? && float(ms[j].end).Some?
  }

  lemma AllFloatsCons(ms: seq<TseMatch>, float: FloatParser)
    requires ms != []
    ensures AllFloats(ms, float) <==>
      (float(ms[0].begin).Some? && float(ms[0].end).Some? && AllFloats(ms[1..], float))
  {
    if float(ms[0].begin).Some? && float(ms[0].end).Some? && AllFloats(ms[1..], float) {
      forall j | 0 <= j < |ms| ensures float(ms[j].begin).Some? && float(ms[j].end).Some? {
        if j > 0 { assert ms[j] == ms[1..][j - 1]; }
      }
    }
  }

  /** The parse succeeds exactly when every begin and end field is a float. */
  lemma {:induction false} EventsFromOk(fileId: string, ms: seq<TseMatch>, uuid4: nat -> string, i: nat, float: FloatParser)
    ensures EventsFrom(fileId, ms, uuid4, i, float).Ok? <==> AllFloats(ms, float)
    decreases |ms|
  {
    if ms != [] {
      EventsFromOk(fileId, ms[1..], uuid4, i + 1, float);
      AllFloatsCons(ms, float);
    }
  }

  /** Event `e` stands for match `m`, with id `id` and the recording `fileId`. */
  predicate EventOf(e: Event, m: TseMatch, fileId: string, id: string, float: FloatParser)
  {
    && e.id == id
    && e.fileId == fileId
    && Some(e.begin) == float(m.begin)
    && Some(e.end) == float(m.end)
    && e.duration == e.end - e.begin
    && e.eventLabel == m.eventLabel
  }

  /**
   * On success, event j is match j: its id the (i+j)-th `uuid4()`, its file
   * the recording, begin and end fields 1 and 2, duration their difference,
   * label field 3; field 4 is dropped.
   */
  lemma {:induction false} EventsFromEvents(fileId: string, ms: seq<TseMatch>, uuid4: nat -> string, i: nat, float: FloatParser)
    requires EventsFrom(fileId, ms, uuid4, i, float).Ok?
    ensures var es := EventsFrom(fileId, ms, uuid4, i, float).value;
      |es| == |ms| && forall j :: 0 <= j < |ms| ==> EventOf(es[j], ms[j], fileId, uuid4(i + j), float)
    decreases |ms|
  {
    if ms != [] {
      EventsFromEvents(fileId, ms[1..], uuid4, i + 1, float);
      var es := EventsFrom(fileId, ms, uuid4, i, float).value;
      var tail := EventsFrom(fileId, ms[1..], uuid4, i + 1, float).value;
      assert es[1..] == tail;
      forall j | 0 <= j < |ms| ensures EventOf(es[j], ms[j], fileId, uuid4(i + j), float) {
        if j > 0 {
          assert es[j] == tail[j - 1] && ms[j] == ms[1..][j - 1];
          assert i + j == (i + 1) + (j - 1);
        }
      }
    }
  }

  /** Match j is the first with a field the parser rejects. */
  predicate FirstBadMatch(ms: seq<TseMatch>, j: int, float: FloatParser)
  {
    0 <= j < |ms| && AllFloats(ms[..j], float) && (float(ms[j].begin).None? || float(ms[j].end).None?)
  }

  /** The ValueError a match raises: its begin field if that is rejected, else its end field. */
  function FieldError(m: TseMatch, float: FloatParser): IndexError
  {
    if float(m.begin).None? then NotAFloat(m.begin) else NotAFloat(m.end)
  }

  /**
   * When the parse fails, the error names the first field the parser rejects,
   * in evaluation order: the begin field of a match before its end field.
   */
  lemma {:induction false} EventsFromFirstError(fileId: string, ms: seq<TseMatch>, uuid4: nat -> string, i: nat, float: FloatParser)
    requires EventsFrom(fileId, ms, uuid4, i, float).Err?
    ensures exists j :: FirstBadMatch(ms, j, float) && EventsFrom(fileId, ms, uuid4, i, float).error == FieldError(ms[j], float)
    decreases |ms|
  {
    if float(ms[0].begin).None? || float(ms[0].end).None? {
      assert AllFloats(ms[..0], float);
      assert FirstBadMatch(ms, 0, float);
    } else {
      EventsFromFirstError(fileId, ms[1..], uuid4, i + 1, float);
      var j :| FirstBadMatch(ms[1..], j, float) && EventsFrom(fileId, ms[1..], uuid4, i + 1, float).error == FieldError(ms[1..][j], float);
      assert ms[1..][j] == ms[j + 1];
      assert ms[..j + 1] == [ms[0]] + ms[1..][..j];
      assert FirstBadMatch(ms, j + 1, float);
    }
  }

  /** The annotation text is read line by line: `findall` yields the groups of each matching line, in order. */
  lemma TseFindAllByLines(text: string)
    ensures TseFindAll(text) == GroupsOfLines(Split(text, '\n'))
  {
    TsePatternLineLocal();
    EngineAdvances(TsePattern);
    EngineLineLocal(TsePattern);
    FindAllByLines(Engine(TsePattern), text);
    GroupsOfMatchLines(Split(text, '\n'));
  }

  /** The groups of one line: one match or none. */
  function LineGroups(line: string): seq<TseMatch>
  {
    MatchLength(TsePattern, line);
    match Match(TsePattern, line)
    case Some(ps) => [Groups(ps)]
    case None => []
  }

  /** Each line gives at most one match. */
  lemma {:induction false} GroupsOfLinesBound(lines: seq<string>)
    ensures |GroupsOfLines(lines)| <= |lines|
  {
    if lines != [] {
      GroupsOfLinesBound(lines[1..]);
    }
  }

  /** The groups of every line that matches, in line order. */
  function GroupsOfLines(lines: seq<string>): seq<TseMatch>
  {
    if lines == [] then [] else LineGroups(lines[0]) + GroupsOfLines(lines[1..])
  }

  /** Groups of each of a list of matches, in order. */
  function GroupsOf(found: seq<seq<string>>): (ms: seq<TseMatch>)
    requires forall j :: 0 <= j < |found| ==> |found[j]| == |TsePattern|
    ensures |ms| == |found|
    ensures forall j :: 0 <= j < |found| ==> ms[j] == Groups(found[j])
  {
    seq(|found|, j requires 0 <= j < |found| => Groups(found[j]))
  }

  lemma LineGroupsOfMatch(line: string)
    ensures var lm := LineMatch(Engine(TsePattern), line);
      (forall j :: 0 <= j < |lm| ==> |lm[j]| == |TsePattern|) && LineGroups(line) == GroupsOf(lm)
  {
    MatchLength(TsePattern, line);
  }

  lemma GroupsOfAppend(a: seq<seq<string>>, b: seq<seq<string>>)
    requires forall j :: 0 <= j < |a| ==> |a[j]| == |TsePattern|
    requires forall j :: 0 <= j < |b| ==> |b[j]| == |TsePattern|
    ensures forall j :: 0 <= j < |a + b| ==> |(a + b)[j]| == |TsePattern|
    ensures GroupsOf(a + b) == GroupsOf(a) + GroupsOf(b)
  {
  }

  lemma {:induction false} GroupsOfMatchLines(lines: seq<string>)
    ensures var found := MatchLines(Engine(TsePattern), lines);
      (forall j :: 0 <= j < |found| ==> |found[j]| == |TsePattern|) && GroupsOfLines(lines) == GroupsOf(found)
  {
    if lines != [] {
      GroupsOfMatchLines(lines[1..]);
      LineGroupsOfMatch(lines[0]);
      GroupsOfAppend(LineMatch(Engine(TsePattern), lines[0]), MatchLines(Engine(TsePattern), lines[1..]));
    }
  }

  /** A line ending in a carriage return never matches, because the pattern ends with a digit before `$`. */
  lemma CarriageReturnLineNeverMatches(line: string)
    requires '\n' !in line
    requires |line| >= 1 && line[|line| - 1] == '\r'
    ensures Match(TsePattern, line).None?
  {
    if Match(TsePattern, line).Some? {
      MatchSound(TsePattern, line);
      FitsEndInClass(TsePattern, line, Match(TsePattern, line).value, Digit);
      assert false;
    }
  }

  /**
   * The pattern's unescaped dots let a malformed line through: when the
   * character between the digits of the begin field is an ASCII character
   * `float()` does not accept there (a space, say, as in `1 2 3.0 x 1.0`), the line still
   * matches, and the whole call fails instead of skipping that line.
   */
  lemma MalformedLineRaises(b1: string, m1: char, b2: string, e1: string, m2: char, e2: string,
                            w: string, c1: char, m3: char, c2: string,
                            root: string, file: File, uuid4: nat -> string)
    requires SplitNumber(b1, m1, b2) && SplitNumber(e1, m2, e2)
    requires |w| >= 1 && AllWordChars(w)
    requires IsDigit(c1) && m3 != '\n' && |c2| >= 1 && AllDigits(c2)
    requires m1 as int < 0x80 && m1 !in "._eE"
    ensures var text := b1 + [m1] + b2 + [' '] + e1 + [m2] + e2 + [' '] + w + [' '] + [c1] + [m3] + c2;
      GetRecordEvents(root, file, _ => Some(text), uuid4) == Err(NotAFloat(b1 + [m1] + b2))
  {
    var text := b1 + [m1] + b2 + [' '] + e1 + [m2] + e2 + [' '] + w + [' '] + [c1] + [m3] + c2;
    var m := TseMatch(b1 + [m1] + b2, e1 + [m2] + e2, w, [c1] + [m3] + c2);
    OneLineFindAll(b1, m1, b2, e1, m2, e2, w, c1, m3, c2);
    BadMarkRejected(b1, m1, b2);
    FirstMatchRejected(root, file, _ => Some(text), uuid4, text, m);
  }

  /** A sidecar whose first match has a begin field `float()` rejects fails with that field. */
  lemma FirstMatchRejected(root: string, file: File, read: string -> Option<string>, uuid4: nat -> string,
                           text: string, m: TseMatch)
    requires read(SidecarPath(OpenRaw(root, file).path)) == Some(text)
    requires TseFindAll(text) == [m]
    requires NumberShaped(m.begin) && FloatOfField(m.begin) == None
    ensures GetRecordEvents(root, file, read, uuid4) == Err(NotAFloat(m.begin))
  {
    assert ParseFloat(m.begin) == None;
  }

  /**
   * `float()` rejects digits around an ASCII character other than `.`, `_`,
   * `e` or `E` (a non-ASCII decimal digit there it would read as a digit).
   */
  lemma BadMarkRejected(b1: string, m1: char, b2: string)
    requires SplitNumber(b1, m1, b2) && m1 as int < 0x80 && m1 !in "._eE"
    ensures NumberShaped(b1 + [m1] + b2) && FloatOfField(b1 + [m1] + b2) == None
  {
    var begin := b1 + [m1] + b2;
    NumberShapedFromPieces(b1, m1, b2);
    PrefixDigits(b1, begin);
    assert begin[|b1|] == m1;
    assert FirstNonDigit(begin) == |b1|;
  }

  /** The annotation text of one such line yields exactly its fields. */
  lemma OneLineFindAll(b1: string, m1: char, b2: string, e1: string, m2: char, e2: string,
                       w: string, c1: char, m3: char, c2: string)
    requires SplitNumber(b1, m1, b2) && SplitNumber(e1, m2, e2)
    requires |w| >= 1 && AllWordChars(w)
    requires IsDigit(c1) && m3 != '\n' && |c2| >= 1 && AllDigits(c2)
    ensures var text := b1 + [m1] + b2 + [' '] + e1 + [m2] + e2 + [' '] + w + [' '] + [c1] + [m3] + c2;
      TseFindAll(text) == [TseMatch(b1 + [m1] + b2, e1 + [m2] + e2, w, [c1] + [m3] + c2)]
  {
    var text := b1 + [m1] + b2 + [' '] + e1 + [m2] + e2 + [' '] + w + [' '] + [c1] + [m3] + c2;
    TseLineGroups(b1, m1, b2, e1, m2, e2, w, c1, m3, c2);
    LineWithoutBreak(b1, m1, b2, e1, m2, e2, w, c1, m3, c2);
    SingleLineFindAll(text, Match(TsePattern, text).value);
  }

  lemma LineWithoutBreak(b1: string, m1: char, b2: string, e1: string, m2: char, e2: string,
                         w: string, c1: char, m3: char, c2: string)
    requires SplitNumber(b1, m1, b2) && SplitNumber(e1, m2, e2)
    requires |w| >= 1 && AllWordChars(w)
    requires IsDigit(c1) && m3 != '\n' && |c2| >= 1 && AllDigits(c2)
    ensures '\n' !in b1 + [m1] + b2 + [' '] + e1 + [m2] + e2 + [' '] + w + [' '] + [c1] + [m3] + c2
  {
    DigitsNoBreak(b1); DigitsNoBreak(b2); DigitsNoBreak(e1); DigitsNoBreak(e2); DigitsNoBreak(c2);
    assert '\n' !in w by {
      forall k | 0 <= k < |w| ensures w[k] != '\n' { assert InClass(WordChar, w[k]); }
    }
  }

  /** A text of one line that matches yields that line's groups and nothing else. */
  lemma SingleLineFindAll(text: string, ps: seq<string>)
    requires '\n' !in text && Match(TsePattern, text) == Some(ps)
    ensures |ps| == |TsePattern| && TseFindAll(text) == [Groups(ps)]
  {
    MatchLength(TsePattern, text);
    SplitWhole(text, '\n');
    TseFindAllByLines(text);
    assert GroupsOfLines([text]) == LineGroups(text);
  }

  lemma DigitsNoBreak(s: string)
    requires AllDigits(s)
    ensures '\n' !in s
  {
    forall k | 0 <= k < |s| ensures s[k] != '\n' { assert IsDigit(s[k]); }
  }

  /** Digits, one other character, digits: a field `\d+.\d+` matches as a whole. */
  predicate SplitNumber(whole: string, mark: char, frac: string)
  {
    |whole| >= 1 && AllDigits(whole) && |frac| >= 1 && AllDigits(frac) && !IsDigit(mark) && mark != '\n'
  }

  /**
   * A line built from well-formed fields matches, and the engine's groups are
   * exactly those fields: begin `b1 m1 b2`, end `e1 m2 e2`, label `w`,
   * confidence `c1 m3 c2`.
   */
  lemma TseLineGroups(b1: string, m1: char, b2: string, e1: string, m2: char, e2: string,
                      w: string, c1: char, m3: char, c2: string)
    requires SplitNumber(b1, m1, b2) && SplitNumber(e1, m2, e2)
    requires |w| >= 1 && AllWordChars(w)
    requires IsDigit(c1) && m3 != '\n' && |c2| >= 1 && AllDigits(c2)
    ensures var line := b1 + [m1] + b2 + [' '] + e1 + [m2] + e2 + [' '] + w + [' '] + [c1] + [m3] + c2;
      var m := Match(TsePattern, line);
      m.Some? && |m.value| == |TsePattern| && Groups(m.value) == TseMatch(b1 + [m1] + b2, e1 + [m2] + e2, w, [c1] + [m3] + c2)
  {
    var tail := [' '] + w + [' '] + [c1] + [m3] + c2;
    var qt: seq<string> := [[' '], w, [' '], [c1], [m3], c2, []];
    TseLineTail(w, c1, m3, c2);
    TseLineHeadSteps(b1, m1, b2, e1, m2, e2, TsePattern[7..], tail, qt);
    TsePatternHalves();
    var line := b1 + ([m1] + (b2 + ([' '] + (e1 + ([m2] + (e2 + tail))))));
    var q := [b1] + ([[m1]] + ([b2] + ([[' ']] + ([e1] + ([[m2]] + ([e2] + qt))))));
    LineReassociated(b1, m1, b2, e1, m2, e2, w, c1, m3, c2);
    GroupsOfPieces(b1, m1, b2, e1, m2, e2, qt);
  }

  /** The first seven atoms, `\d+.\d+ \d+.\d+`, on the begin and end fields, whatever follows. */
  lemma TseLineHeadSteps(b1: string, m1: char, b2: string, e1: string, m2: char, e2: string,
                         rest: seq<Atom>, tail: string, qt: seq<string>)
    requires SplitNumber(b1, m1, b2) && SplitNumber(e1, m2, e2)
    requires |tail| >= 1 && tail[0] == ' ' && Match(rest, tail) == Some(qt)
    ensures Match([Greedy(Digit)] + ([Once(AnyButNewline)] + ([Greedy(Digit)] + ([Once(Literal(' '))] +
                    ([Greedy(Digit)] + ([Once(AnyButNewline)] + ([Greedy(Digit)] + rest)))))),
                  b1 + ([m1] + (b2 + ([' '] + (e1 + ([m2] + (e2 + tail)))))))
      == Some([b1] + ([[m1]] + ([b2] + ([[' ']] + ([e1] + ([[m2]] + ([e2] + qt)))))))
  {
    NumberFieldSteps(e1, m2, e2, rest, tail, qt);
    var pe := [Greedy(Digit)] + ([Once(AnyButNewline)] + ([Greedy(Digit)] + rest));
    var se := e1 + ([m2] + (e2 + tail));
    var qe := [e1] + ([[m2]] + ([e2] + qt));
    MatchOnce(Literal(' '), pe, ' ', se, qe);
    NumberFieldSteps(b1, m1, b2, [Once(Literal(' '))] + pe, [' '] + se, [[' ']] + qe);
  }

  /** `\d+.\d+` takes a split number whole when what follows matches the rest of the pattern. */
  lemma NumberFieldSteps(d1: string, m: char, d2: string, rest: seq<Atom>, tail: string, qt: seq<string>)
    requires SplitNumber(d1, m, d2)
    requires |tail| >= 1 && !IsDigit(tail[0]) && Match(rest, tail) == Some(qt)
    ensures Match([Greedy(Digit)] + ([Once(AnyButNewline)] + ([Greedy(Digit)] + rest)), d1 + ([m] + (d2 + tail)))
      == Some([d1] + ([[m]] + ([d2] + qt)))
  {
    MatchGreedy(Digit, rest, d2, tail, qt);
    MatchOnce(AnyButNewline, [Greedy(Digit)] + rest, m, d2 + tail, [d2] + qt);
    MatchGreedy(Digit, [Once(AnyButNewline)] + ([Greedy(Digit)] + rest), d1, [m] + (d2 + tail), [[m]] + ([d2] + qt));
  }

  /** The pattern as its begin and end fields, then the rest. */
  lemma TsePatternHalves()
    ensures TsePattern[7..] == [Once(Literal(' ')), Greedy(WordChar), Once(Literal(' ')), Once(Digit), Once(AnyButNewline), Greedy(Digit), LineEnd]
    ensures TsePattern == [Greedy(Digit)] + ([Once(AnyButNewline)] + ([Greedy(Digit)] + ([Once(Literal(' '))] +
                            ([Greedy(Digit)] + ([Once(AnyButNewline)] + ([Greedy(Digit)] + TsePattern[7..]))))))
  {
  }

  /** The last seven atoms, ` \w+ \d.\d+$`, on the label and confidence fields. */
  lemma TseLineTail(w: string, c1: char, m3: char, c2: string)
    requires |w| >= 1 && AllWordChars(w)
    requires IsDigit(c1) && m3 != '\n' && |c2| >= 1 && AllDigits(c2)
    ensures Match(TsePattern[7..], [' '] + w + [' '] + [c1] + [m3] + c2) == Some([[' '], w, [' '], [c1], [m3], c2, []])
  {
    var p7 := [Once(Literal(' '))] + ([Greedy(WordChar)] + ([Once(Literal(' '))] + ([Once(Digit)] + ([Once(AnyButNewline)] + ([Greedy(Digit)] + [LineEnd])))));
    var s7: string := [' '] + (w + ([' '] + ([c1] + ([m3] + (c2 + [])))));
    var q7: seq<string> := [[' ']] + ([w] + ([[' ']] + ([[c1]] + ([[m3]] + ([c2] + [[]])))));
    TseLineTailSteps(w, c1, m3, c2);
    TailPatternNested();
    TailTextNested(w, c1, m3, c2);
    TailPiecesNested(w, c1, m3, c2);
    MatchRewrite(TsePattern[7..], p7, [' '] + w + [' '] + [c1] + [m3] + c2, s7, [[' '], w, [' '], [c1], [m3], c2, []], q7);
  }

  lemma TseLineTailSteps(w: string, c1: char, m3: char, c2: string)
    requires |w| >= 1 && AllWordChars(w)
    requires IsDigit(c1) && m3 != '\n' && |c2| >= 1 && AllDigits(c2)
    ensures Match([Once(Literal(' '))] + ([Greedy(WordChar)] + ([Once(Literal(' '))] + ([Once(Digit)] + ([Once(AnyButNewline)] + ([Greedy(Digit)] + [LineEnd]))))),
                  [' '] + (w + ([' '] + ([c1] + ([m3] + (c2 + []))))))
      == Some([[' ']] + ([w] + ([[' ']] + ([[c1]] + ([[m3]] + ([c2] + [[]]))))))
  {
    var p13 := [LineEnd];
    var p12 := [Greedy(Digit)] + p13;
    var p11 := [Once(AnyButNewline)] + p12;
    var p10 := [Once(Digit)] + p11;
    var p9 := [Once(Literal(' '))] + p10;
    var p8 := [Greedy(WordChar)] + p9;
    var s13: string, q13: seq<string> := [], [[]];
    MatchLineEndAtEnd();
    var s12, q12 := c2 + s13, [c2] + q13;
    MatchGreedy(Digit, p13, c2, s13, q13);
    var s11, q11 := [m3] + s12, [[m3]] + q12;
    MatchOnce(AnyButNewline, p12, m3, s12, q12);
    var s10, q10 := [c1] + s11, [[c1]] + q11;
    MatchOnce(Digit, p11, c1, s11, q11);
    var s9, q9 := [' '] + s10, [[' ']] + q10;
    MatchOnce(Literal(' '), p10, ' ', s10, q10);
    var s8, q8 := w + s9, [w] + q9;
    MatchGreedy(WordChar, p9, w, s9, q9);
    MatchOnce(Literal(' '), p8, ' ', s8, q8);
  }

  /** An unreadable sidecar fails the call, naming the sidecar's path. */
  lemma RecordEventsUnreadable(root: string, file: File, read: string -> Option<string>, uuid4: nat -> string)
    requires read(SidecarPath(PathJoin(root, file.path))).None?
    ensures GetRecordEvents(root, file, read, uuid4) == Err(AnnotationUnreadable(SidecarPath(PathJoin(root, file.path))))
  {
  }

  /**
   * `_get_record_events` on a readable sidecar: the call succeeds exactly
   * when every matched begin and end field is a float, and then event j
   * stands for match j of the sidecar text, with the j-th `uuid4()` as its
   * id and the recording's id as its file.
   */
  lemma RecordEvents(root: string, file: File, read: string -> Option<string>, uuid4: nat -> string, text: string)
    requires read(SidecarPath(PathJoin(root, file.path))) == Some(text)
    ensures GetRecordEvents(root, file, read, uuid4).Ok? <==> AllFloats(TseFindAll(text), ParseFloat)
    ensures var ms, r := TseFindAll(text), GetRecordEvents(root, file, read, uuid4);
      r.Ok? ==> |r.value| == |ms| && forall j :: 0 <= j < |ms| ==> EventOf(r.value[j], ms[j], file.id, uuid4(j), ParseFloat)
  {
    var ms := TseFindAll(text);
    assert GetRecordEvents(root, file, read, uuid4) == EventsFrom(file.id, ms, uuid4, 0, ParseFloat);
    EventsFromStart(file.id, ms, uuid4, ParseFloat);
  }

  /** The list comprehension started at the first `uuid4()` call. */
  lemma EventsFromStart(fileId: string, ms: seq<TseMatch>, uuid4: nat -> string, float: FloatParser)
    ensures EventsFrom(fileId, ms, uuid4, 0, float).Ok? <==> AllFloats(ms, float)
    ensures var r := EventsFrom(fileId, ms, uuid4, 0, float);
      r.Ok? ==> |r.value| == |ms| && forall j :: 0 <= j < |ms| ==> EventOf(r.value[j], ms[j], fileId, uuid4(j), float)
  {
    EventsFromOk(fileId, ms, uuid4, 0, float);
    var r := EventsFrom(fileId, ms, uuid4, 0, float);
    if r.Ok? {
      EventsFromEvents(fileId, ms, uuid4, 0, float);
      forall j | 0 <= j < |ms| ensures EventOf(r.value[j], ms[j], fileId, uuid4(j), float) {
        assert EventOf(r.value[j], ms[j], fileId, uuid4(0 + j), float);
      }
    }
  }

  // Re-bracketing. The lemmas below state nothing about the annotation
  // parser: each rewrites a line, a pattern or a list of pieces with its
  // concatenations grouped differently, so that the proofs of TseLineGroups
  // and TseLineTail follow the engine's atom-by-atom recursion within the
  // solver's budget.

  lemma LineReassociated(b1: string, m1: char, b2: string, e1: string, m2: char, e2: string,
                         w: string, c1: char, m3: char, c2: string)
    ensures b1 + ([m1] + (b2 + ([' '] + (e1 + ([m2] + (e2 + ([' '] + w + [' '] + [c1] + [m3] + c2)))))))
      == b1 + [m1] + b2 + [' '] + e1 + [m2] + e2 + [' '] + w + [' '] + [c1] + [m3] + c2
  {
  }

  lemma GroupsOfPieces(b1: string, m1: char, b2: string, e1: string, m2: char, e2: string, qt: seq<string>)
    requires |qt| == 7
    ensures var q := [b1] + ([[m1]] + ([b2] + ([[' ']] + ([e1] + ([[m2]] + ([e2] + qt))))));
      Groups(q) == TseMatch(b1 + [m1] + b2, e1 + [m2] + e2, qt[1], qt[3] + qt[4] + qt[5])
  {
  }

  lemma MatchRewrite(p: seq<Atom>, p': seq<Atom>, s: string, s': string, ps: seq<string>, ps': seq<string>)
    requires p == p' && s == s' && ps == ps' && Match(p', s') == Some(ps')
    ensures Match(p, s) == Some(ps)
  {
  }

  lemma TailPatternNested()
    ensures TsePattern[7..] == [Once(Literal(' '))] + ([Greedy(WordChar)] + ([Once(Literal(' '))] + ([Once(Digit)] + ([Once(AnyButNewline)] + ([Greedy(Digit)] + [LineEnd])))))
  {
    TsePatternHalves();
  }

  lemma TailTextNested(w: string, c1: char, m3: char, c2: string)
    ensures [' '] + w + [' '] + [c1] + [m3] + c2 == [' '] + (w + ([' '] + ([c1] + ([m3] + (c2 + [])))))
  {
    assert c2 + [] == c2;
  }

  lemma TailPiecesNested(w: string, c1: char, m3: char, c2: string)
    ensures [[' '], w, [' '], [c1], [m3], c2, []] == [[' ']] + ([w] + ([[' ']] + ([[c1]] + ([[m3]] + ([c2] + [[]])))))
  {
  }
}

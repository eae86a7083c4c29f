/**
 * The part of Python's `json` module that pipeline signatures go through:
 * `json.dumps` with its defaults (`ensure_ascii=True`, separators `", "` and
 * `": "`) on strings and objects, and a decoder for the same values that
 * follows section 7 of RFC 8259 the way `json.loads` reads it (strict
 * mode: raw control characters are rejected, and `\uXXXX` escapes take
 * either case of hexadecimal digit).
 */
module Json {
  import opened Wrappers

  /** A JSON value built from strings and objects; an object keeps its members in order. */
  datatype Value = Str(s: string) | Obj(members: seq<Member>)
  datatype Member = Member(key: string, value: Value)

  // ---------------------------------------------------------------- encoding

  /** A lower-case hexadecimal digit, as `'{0:04x}'.format` writes it. */
  function HexDigit(d: nat): (ch: char)
    requires d < 16
  {
    if d < 10 then ('0' as int + d) as char else ('a' as int + d - 10) as char
  }

  /** Four hexadecimal digits, most significant first. */
  function Hex4(n: nat): (h: string)
    requires n < 0x10000
    ensures |h| == 4
  {
    var n1 := n / 16;
    var n2 := n1 / 16;
    [HexDigit(n2 / 16), HexDigit(n2 % 16), HexDigit(n1 % 16), HexDigit(n % 16)]
  }

  /**
   * How `ensure_ascii` writes one character: the two-character escapes for
   * the quote, the backslash and five control characters, printable ASCII as
   * itself, any other character below U+10000 as `\uXXXX`, and a character
   * above as a UTF-16 surrogate pair of two such escapes.
   */
  function Escape(c: char): (e: string)
  {
    var n := c as int;
    if c == '"' then ['\\', '"']
    else if c == '\\' then ['\\', '\\']
    else if c == '\n' then ['\\', 'n']
    else if c == '\r' then ['\\', 'r']
    else if c == '\t' then ['\\', 't']
    else if n == 8 then ['\\', 'b']
    else if n == 12 then ['\\', 'f']
    else if 0x20 <= n < 0x7F then [c]
    else if n < 0x10000 then ['\\', 'u'] + Hex4(n)
    else ['\\', 'u'] + Hex4(0xD800 + (n - 0x10000) / 0x400) + ['\\', 'u'] + Hex4(0xDC00 + (n - 0x10000) % 0x400)
  }

  function EscapeAll(x: string): string
  {
    if x == [] then [] else Escape(x[0]) + EscapeAll(x[1..])
  }

  /** A JSON string literal. */
  function Quote(x: string): string
  {
    ['"'] + EscapeAll(x) + ['"']
  }

  /** `json.dumps(v)`. */
  function Encode(v: Value): string
    decreases v, 1
  {
    match v
    case Str(x) => Quote(x)
    case Obj(ms) => ['{'] + EncodeMembers(ms) + ['}']
  }

  /** The members of an object, each as `key: value`, separated by `", "`. */
  function EncodeMembers(ms: seq<Member>): string
    decreases ms, 0
  {
    if ms == [] then []
    else if |ms| == 1 then EncodeMember(ms[0])
    else EncodeMember(ms[0]) + [',', ' '] + EncodeMembers(ms[1..])
  }

  function EncodeMember(m: Member): string
    decreases m, 0
  {
    Quote(m.key) + [':', ' '] + Encode(m.value)
  }

  // ---------------------------------------------------------------- decoding

  predicate IsWhitespace(ch: char)
  {
    ch == ' ' || ch == '\t' || ch == '\n' || ch == '\r'
  }

  /** The text after any leading whitespace. */
  function SkipWs(s: string): (r: string)
    ensures |r| <= |s|
  {
    if s != [] && IsWhitespace(s[0]) then SkipWs(s[1..]) else s
  }

  /** The value of a hexadecimal digit of either case. */
  function HexValue(ch: char): Option<nat>
  {
    if '0' <= ch <= '9' then Some(ch as int - '0' as int)
    else if 'a' <= ch <= 'f' then Some(ch as int - 'a' as int + 10)
    else if 'A' <= ch <= 'F' then Some(ch as int - 'A' as int + 10)
    else None
  }

  /** Four hexadecimal digits. */
  function ParseHex4(s: string): (r: Option<nat>)
    requires |s| == 4
    ensures r.Some? ==> r.value < 0x10000
  {
    match (HexValue(s[0]), HexValue(s[1]), HexValue(s[2]), HexValue(s[3]))
    case (Some(a), Some(b), Some(c), Some(d)) =>
      if a < 16 && b < 16 && c < 16 && d < 16 then Some(((a * 16 + b) * 16 + c) * 16 + d) else None
    case _ => None
  }

  /** The character that a two-character escape `\e` stands for. */
  function ShortEscape(e: char): Option<char>
  {
    if e == '"' || e == '\\' || e == '/' then Some(e)
    else if e == 'b' then Some(8 as char)
    else if e == 'f' then Some(12 as char)
    else if e == 'n' then Some('\n')
    else if e == 'r' then Some('\r')
    else if e == 't' then Some('\t')
    else None
  }

  /**
   * The digits after `\u`: one code unit, or a high surrogate followed by
   * `\u` and a low surrogate, which together stand for one character above
   * U+FFFF. A surrogate without its partner cannot be a character here.
   */
  function ParseUnicode(s: string): (r: Option<(char, string)>)
    ensures r.Some? ==> |r.value.1| < |s|
  {
    if |s| < 4 then None
    else match ParseHex4(s[..4])
      case None => None
      case Some(hi) =>
        if 0xD800 <= hi < 0xDC00 then
          if |s| < 10 || s[4] != '\\' || s[5] != 'u' then None
          else match ParseHex4(s[6..10])
            case None => None
            case Some(lo) =>
              if 0xDC00 <= lo < 0xE000 then Some((Combine(hi, lo), s[10..])) else None
        else if 0xDC00 <= hi < 0xE000 then None
        else Some((hi as char, s[4..]))
  }

  /** The character a surrogate pair stands for. */
  function Combine(hi: nat, lo: nat): char
    requires 0xD800 <= hi < 0xDC00 && 0xDC00 <= lo < 0xE000
  {
    (0x10000 + (hi - 0xD800) * 0x400 + (lo - 0xDC00)) as char
  }

  /** One character of a string literal's body, escaped or not; the closing quote is not one. */
  function ParseUnit(s: string): (r: Option<(char, string)>)
    requires s != [] && s[0] != '"'
    ensures r.Some? ==> |r.value.1| < |s|
  {
    if s[0] == '\\' then
      if |s| < 2 then None
      else if s[1] == 'u' then ParseUnicode(s[2..])
      else match ShortEscape(s[1])
        case None => None
        case Some(c) => Some((c, s[2..]))
    else if (s[0] as int) < 0x20 then None
    else Some((s[0], s[1..]))
  }

  /** The body of a string literal up to its closing quote, and the text after the quote. */
  function ParseStringBody(s: string): (r: Option<(string, string)>)
    ensures r.Some? ==> |r.value.1| < |s|
    decreases |s|
  {
    if s == [] then None
    else if s[0] == '"' then Some(([], s[1..]))
    else match ParseUnit(s)
      case None => None
      case Some((c, rest)) =>
        match ParseStringBody(rest)
        case None => None
        case Some((x, after)) => Some(([c] + x, after))
  }

  /** A value at the start of `s` and the text after it. */
  function ParseValue(s: string): (r: Option<(Value, string)>)
    ensures r.Some? ==> |r.value.1| < |s|
    decreases |s|, 1
  {
    if s == [] then None
    else if s[0] == '"' then
      match ParseStringBody(s[1..])
      case None => None
      case Some((x, rest)) => Some((Str(x), rest))
    else if s[0] == '{' then
      var t := SkipWs(s[1..]);
      if t != [] && t[0] == '}' then Some((Obj([]), t[1..]))
      else
        match ParseMembers(t)
        case None => None
        case Some((ms, rest)) => Some((Obj(ms), rest))
    else None
  }

  /** The members of an object up to and including its closing brace, and the text after it. */
  function ParseMembers(s: string): (r: Option<(seq<Member>, string)>)
    ensures r.Some? ==> |r.value.1| < |s|
    decreases |s|, 0
  {
    if s == [] || s[0] != '"' then None
    else
      match ParseStringBody(s[1..])
      case None => None
      case Some((k, r1)) => ParseColonValue(k, r1)
  }

  /** After a member's key: the colon, the value, and the members after it. */
  function ParseColonValue(k: string, s: string): (r: Option<(seq<Member>, string)>)
    ensures r.Some? ==> |r.value.1| < |s|
    decreases |s|, 0
  {
    var t := SkipWs(s);
    if t == [] || t[0] != ':' then None
    else
      match ParseValue(SkipWs(t[1..]))
      case None => None
      case Some((v, rest)) => ParseAfterMember(Member(k, v), SkipWs(rest))
  }

  /** After a member: the closing brace, or a comma and the next members. */
  function ParseAfterMember(m: Member, s: string): (r: Option<(seq<Member>, string)>)
    ensures r.Some? ==> |r.value.1| < |s|
    decreases |s|, 0
  {
    if s == [] then None
    else if s[0] == '}' then Some(([m], s[1..]))
    else if s[0] == ',' then
      match ParseMembers(SkipWs(s[1..]))
      case None => None
      case Some((ms, rest)) => Some(([m] + ms, rest))
    else None
  }

  /** `json.loads(text)`: one value, with optional whitespace around it and nothing else. */
  function Decode(text: string): Option<Value>
  {
    match ParseValue(SkipWs(text))
    case None => None
    case Some((v, rest)) => if SkipWs(rest) == [] then Some(v) else None
  }

  // ---------------------------------------------------------------- round trip

  lemma HexDigitValue(d: nat)
    requires d < 16
    ensures HexValue(HexDigit(d)) == Some(d)
  {
  }

  /** Four digits written by `Hex4` read back as the number they came from. */
  lemma ParseHex4Of(n: nat)
    requires n < 0x10000
    ensures ParseHex4(Hex4(n)) == Some(n)
  {
    var n1 := n / 16;
    var n2 := n1 / 16;
    HexDigitValue(n2 / 16);
    HexDigitValue(n2 % 16);
    HexDigitValue(n1 % 16);
    HexDigitValue(n % 16);
  }

  /** An escape that is a single character: printable ASCII other than the quote and the backslash. */
  lemma ParseUnitPlain(c: char, rest: string)
    requires 0x20 <= c as int < 0x7F && c != '"' && c != '\\'
    ensures ParseUnit([c] + rest) == Some((c, rest))
  {
    assert ([c] + rest)[1..] == rest;
  }

  /** A two-character escape. */
  lemma ParseUnitShort(e: char, c: char, rest: string)
    requires e != 'u' && ShortEscape(e) == Some(c)
    ensures ParseUnit(['\\', e] + rest) == Some((c, rest))
  {
    assert (['\\', e] + rest)[2..] == rest;
  }

  /** `\uXXXX` for a character below U+10000. */
  lemma ParseUnitBmp(c: char, rest: string)
    requires c as int < 0x10000
    ensures ParseUnit(['\\', 'u'] + Hex4(c as int) + rest) == Some((c, rest))
  {
    var n := c as int;
    var s := ['\\', 'u'] + Hex4(n) + rest;
    var u := Hex4(n) + rest;
    assert s[2..] == u;
    assert u[..4] == Hex4(n);
    assert u[4..] == rest;
    ParseHex4Of(n);
  }

  /** A surrogate pair for a character above U+FFFF. */
  lemma ParseUnitPair(c: char, rest: string)
    requires c as int >= 0x10000
    ensures var m := c as int - 0x10000;
      ParseUnit(['\\', 'u'] + Hex4(0xD800 + m / 0x400) + ['\\', 'u'] + Hex4(0xDC00 + m % 0x400) + rest) == Some((c, rest))
  {
    var m := c as int - 0x10000;
    var hi, lo := 0xD800 + m / 0x400, 0xDC00 + m % 0x400;
    var s := ['\\', 'u'] + Hex4(hi) + ['\\', 'u'] + Hex4(lo) + rest;
    var u := Hex4(hi) + ['\\', 'u'] + Hex4(lo) + rest;
    assert s[2..] == u;
    assert u[..4] == Hex4(hi);
    assert u[6..10] == Hex4(lo);
    assert u[10..] == rest;
    ParseHex4Of(hi);
    ParseHex4Of(lo);
    assert Combine(hi, lo) == c;
  }

  /** Every escape reads back as the character it was made from, whatever follows it. */
  lemma ParseUnitEscape(c: char, rest: string)
    ensures Escape(c) + rest != [] && (Escape(c) + rest)[0] != '"'
    ensures ParseUnit(Escape(c) + rest) == Some((c, rest))
  {
    var n := c as int;
    if c == '"' || c == '\\' {
      ParseUnitShort(c, c, rest);
    } else if c == '\n' {
      ParseUnitShort('n', c, rest);
    } else if c == '\r' {
      ParseUnitShort('r', c, rest);
    } else if c == '\t' {
      ParseUnitShort('t', c, rest);
    } else if n == 8 {
      ParseUnitShort('b', c, rest);
    } else if n == 12 {
      ParseUnitShort('f', c, rest);
    } else if 0x20 <= n < 0x7F {
      ParseUnitPlain(c, rest);
    } else if n < 0x10000 {
      ParseUnitBmp(c, rest);
    } else {
      ParseUnitPair(c, rest);
    }
  }

  /** A string's escaped body followed by the closing quote reads back as the string. */
  lemma {:induction false} ParseQuoted(x: string, rest: string)
    ensures ParseStringBody(EscapeAll(x) + ['"'] + rest) == Some((x, rest))
    decreases |x|
  {
    var s := EscapeAll(x) + ['"'] + rest;
    if x == [] {
      assert s == ['"'] + rest;
      assert s[1..] == rest;
    } else {
      var after := EscapeAll(x[1..]) + ['"'] + rest;
      assert s == Escape(x[0]) + after;
      ParseUnitEscape(x[0], after);
      ParseQuoted(x[1..], rest);
      assert [x[0]] + x[1..] == x;
    }
  }

  /** An encoded value starts with its opening quote or brace. */
  lemma EncodeStart(v: Value)
    ensures |Encode(v)| >= 2 && (Encode(v)[0] == '"' || Encode(v)[0] == '{')
  {
  }

  lemma EncodeMembersStart(ms: seq<Member>)
    requires |ms| >= 1
    ensures |EncodeMembers(ms)| >= 2 && EncodeMembers(ms)[0] == '"'
  {
  }

  /** A value reads back from its encoding, whatever text follows it. */
  lemma {:induction false} ParseValueEncode(v: Value, rest: string)
    ensures ParseValue(Encode(v) + rest) == Some((v, rest))
    decreases v, 1
  {
    match v
    case Str(x) =>
      Regroup3(['"'] + EscapeAll(x), ['"'], rest);
      Regroup3(['"'], EscapeAll(x), ['"'] + rest);
      ParseQuoted(x, rest);
      Regroup3(EscapeAll(x), ['"'], rest);
      ValueOfString(EscapeAll(x) + ['"'] + rest, x, rest);
    case Obj(ms) =>
      if ms == [] {
        assert Encode(v) + rest == ['{', '}'] + rest;
        ValueOfEmptyObject(rest);
      } else {
        var t := EncodeMembers(ms) + ['}'] + rest;
        Regroup3(['{'] + EncodeMembers(ms), ['}'], rest);
        Regroup3(['{'], EncodeMembers(ms), ['}'] + rest);
        Regroup3(EncodeMembers(ms), ['}'], rest);
        EncodeMembersStart(ms);
        ParseMembersEncode(ms, rest);
        ValueOfObject(t, ms, rest);
      }
  }

  lemma ValueOfString(body: string, x: string, rest: string)
    requires ParseStringBody(body) == Some((x, rest))
    ensures ParseValue(['"'] + body) == Some((Str(x), rest))
  {
    AfterFirst('"', body);
  }

  lemma ValueOfEmptyObject(rest: string)
    ensures ParseValue(['{', '}'] + rest) == Some((Obj([]), rest))
  {
    var s := ['{', '}'] + rest;
    assert s[1..] == ['}'] + rest;
    AfterFirst('}', rest);
  }

  lemma ValueOfObject(t: string, ms: seq<Member>, rest: string)
    requires t != [] && t[0] == '"'
    requires ParseMembers(t) == Some((ms, rest))
    ensures ParseValue(['{'] + t) == Some((Obj(ms), rest))
  {
    AfterFirst('{', t);
  }

  /** A member: its key, then the colon and the value, then what follows. */
  lemma MemberKey(body: string, k: string, r1: string)
    requires ParseStringBody(body) == Some((k, r1))
    ensures ParseMembers(['"'] + body) == ParseColonValue(k, r1)
  {
    AfterFirst('"', body);
  }

  lemma MemberColonValue(k: string, y: string, v: Value, tail: string)
    requires y != [] && !IsWhitespace(y[0])
    requires tail != [] && !IsWhitespace(tail[0])
    requires ParseValue(y) == Some((v, tail))
    ensures ParseColonValue(k, [':', ' '] + y) == ParseAfterMember(Member(k, v), tail)
  {
    var s := [':', ' '] + y;
    assert SkipWs(s) == s;
    assert s[1..] == [' '] + y;
    assert SkipWs(s[1..]) == SkipWs(y);
    assert SkipWs(y) == y;
    assert SkipWs(tail) == tail;
  }

  lemma LastMember(m: Member, rest: string)
    ensures ParseAfterMember(m, ['}'] + rest) == Some(([m], rest))
  {
    AfterFirst('}', rest);
  }

  lemma MoreMembers(m: Member, t: string, ms: seq<Member>, rest: string)
    requires t != [] && !IsWhitespace(t[0])
    requires ParseMembers(t) == Some((ms, rest))
    ensures ParseAfterMember(m, [',', ' '] + t) == Some(([m] + ms, rest))
  {
    var s := [',', ' '] + t;
    assert s[1..] == [' '] + t;
    assert SkipWs(s[1..]) == SkipWs(t);
    assert SkipWs(t) == t;
  }

  lemma AfterFirst(c: char, s: string)
    ensures ([c] + s)[0] == c && ([c] + s)[1..] == s
  {
  }

  /** What follows the first member's value in the text of an object's members. */
  function MembersTail(ms: seq<Member>, rest: string): string
    requires |ms| >= 1
  {
    if |ms| == 1 then ['}'] + rest else [',', ' '] + (EncodeMembers(ms[1..]) + ['}'] + rest)
  }

  /** The text of an object's members, split at the first member's key and value. */
  lemma MembersText(ms: seq<Member>, rest: string)
    requires |ms| >= 1
    ensures EncodeMembers(ms) + ['}'] + rest
      == ['"'] + (EscapeAll(ms[0].key) + ['"'] + ([':', ' '] + (Encode(ms[0].value) + MembersTail(ms, rest))))
  {
    var m := ms[0];
    var member := EncodeMember(m);
    if |ms| == 1 {
      assert EncodeMembers(ms) == member;
      Regroup3(member, ['}'], rest);
    } else {
      var others := EncodeMembers(ms[1..]);
      assert EncodeMembers(ms) == member + [',', ' '] + others;
      RegroupOthers(member, others, rest);
    }
    RegroupMember(EscapeAll(m.key), Encode(m.value), MembersTail(ms, rest));
  }

  /** The members of an object, with its closing brace, read back from their encoding. */
  lemma {:induction false} ParseMembersEncode(ms: seq<Member>, rest: string)
    requires |ms| >= 1
    ensures ParseMembers(EncodeMembers(ms) + ['}'] + rest) == Some((ms, rest))
    decreases ms, 0
  {
    var tail := MembersTail(ms, rest);
    ParseValueEncode(ms[0].value, tail);
    FirstMember(ms, rest);
    if |ms| == 1 {
      LastMember(ms[0], rest);
      assert [ms[0]] == ms;
    } else {
      var t := EncodeMembers(ms[1..]) + ['}'] + rest;
      EncodeMembersStart(ms[1..]);
      ParseMembersEncode(ms[1..], rest);
      MoreMembers(ms[0], t, ms[1..], rest);
      assert [ms[0]] + ms[1..] == ms;
    }
  }

  /** The first member's key and value read back, leaving what follows them. */
  lemma FirstMember(ms: seq<Member>, rest: string)
    requires |ms| >= 1
    requires ParseValue(Encode(ms[0].value) + MembersTail(ms, rest)) == Some((ms[0].value, MembersTail(ms, rest)))
    ensures ParseMembers(EncodeMembers(ms) + ['}'] + rest) == ParseAfterMember(ms[0], MembersTail(ms, rest))
  {
    var k, v := ms[0].key, ms[0].value;
    var tail := MembersTail(ms, rest);
    var y := Encode(v) + tail;
    var body := EscapeAll(k) + ['"'] + ([':', ' '] + y);
    MembersText(ms, rest);
    ParseQuoted(k, [':', ' '] + y);
    MemberKey(body, k, [':', ' '] + y);
    EncodeStart(v);
    assert Member(k, v) == ms[0];
    MemberColonValue(k, y, v, tail);
  }

  /** `json.loads(json.dumps(v)) == v`. */
  lemma DecodeEncode(v: Value)
    ensures Decode(Encode(v)) == Some(v)
  {
    EncodeStart(v);
    ParseValueEncode(v, []);
    assert Encode(v) + [] == Encode(v);
  }

  /** Different values never share an encoding. */
  lemma EncodeInjective(v1: Value, v2: Value)
    requires Encode(v1) == Encode(v2)
    ensures v1 == v2
  {
    DecodeEncode(v1);
    DecodeEncode(v2);
  }

  predicate IsAscii(s: string)
  {
    forall i :: 0 <= i < |s| ==> s[i] as int < 0x80
  }

  lemma Hex4Ascii(n: nat)
    requires n < 0x10000
    ensures IsAscii(Hex4(n))
  {
  }

  /** With `ensure_ascii`, every escape is plain ASCII. */
  lemma EscapeAscii(c: char)
    ensures IsAscii(Escape(c))
  {
    var n := c as int;
    if n >= 0x10000 {
      Hex4Ascii(0xD800 + (n - 0x10000) / 0x400);
      Hex4Ascii(0xDC00 + (n - 0x10000) % 0x400);
    } else if n >= 0x7F {
      Hex4Ascii(n);
    }
  }

  lemma AsciiAppend(a: string, b: string)
    requires IsAscii(a) && IsAscii(b)
    ensures IsAscii(a + b)
  {
  }

  lemma {:induction false} EscapeAllAscii(x: string)
    ensures IsAscii(EscapeAll(x))
    decreases |x|
  {
    if x != [] {
      EscapeAscii(x[0]);
      EscapeAllAscii(x[1..]);
      AsciiAppend(Escape(x[0]), EscapeAll(x[1..]));
    }
  }

  /** `json.dumps` output is ASCII whatever characters the value holds. */
  lemma {:induction false} EncodeAscii(v: Value)
    ensures IsAscii(Encode(v))
    decreases v, 1
  {
    match v
    case Str(x) =>
      EscapeAllAscii(x);
      AsciiAppend(['"'], EscapeAll(x));
      AsciiAppend(['"'] + EscapeAll(x), ['"']);
    case Obj(ms) =>
      EncodeMembersAscii(ms);
      AsciiAppend(['{'], EncodeMembers(ms));
      AsciiAppend(['{'] + EncodeMembers(ms), ['}']);
  }

  lemma {:induction false} EncodeMembersAscii(ms: seq<Member>)
    ensures IsAscii(EncodeMembers(ms))
    decreases ms, 0
  {
    if ms != [] {
      var m := ms[0];
      EscapeAllAscii(m.key);
      AsciiAppend(['"'], EscapeAll(m.key));
      AsciiAppend(['"'] + EscapeAll(m.key), ['"']);
      AsciiAppend(Quote(m.key), [':', ' ']);
      EncodeAscii(m.value);
      AsciiAppend(Quote(m.key) + [':', ' '], Encode(m.value));
      if |ms| > 1 {
        EncodeMembersAscii(ms[1..]);
        AsciiAppend(EncodeMember(m), [',', ' ']);
        AsciiAppend(EncodeMember(m) + [',', ' '], EncodeMembers(ms[1..]));
      }
    }
  }

  // Re-bracketing. The lemmas below state nothing about `json.dumps`: each
  // regroups a concatenation of text so that the round-trip proofs above
  // match the decoder's left-to-right reading within the solver's budget.

  lemma Regroup3(a: string, b: string, c: string)
    ensures a + b + c == a + (b + c)
  {
  }

  lemma RegroupOthers(member: string, others: string, rest: string)
    ensures member + [',', ' '] + others + ['}'] + rest == member + ([',', ' '] + (others + ['}'] + rest))
  {
  }

  lemma RegroupMember(key: string, value: string, tail: string)
    ensures ['"'] + key + ['"'] + [':', ' '] + value + tail
      == ['"'] + (key + ['"'] + ([':', ' '] + (value + tail)))
  {
  }
}

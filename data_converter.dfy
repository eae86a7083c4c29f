/**
 * The two converter steps of the preprocessing pipeline and their
 * signatures. A step's signature is the JSON text of a one-member object
 * mapping the step's class name to an object of its parameters; the
 * pipeline uses it as a cache key, so equal steps must give equal text and
 * different steps different text.
 */
module DataConverter {
  import opened Wrappers
  import opened Json

  /** `ToDataframe()` has no parameters; `ToNumpy(dtype)` keeps the element type it was given. */
  datatype Step = ToDataframe | ToNumpy(dtype: string)

  /** `ToNumpy.__init__`: the element type defaults to `'float32'`. */
  function NewToNumpy(dtype: string := "float32"): (s: Step)
    ensures s.ToNumpy? && s.dtype == dtype
  {
    ToNumpy(dtype)
  }

  /** `self.__class__.__name__`. */
  function ClassName(s: Step): string
  {
    match s
    case ToDataframe => "ToDataframe"
    case ToNumpy(_) => "ToNumpy"
  }

  /** The parameter object of a step. */
  function Params(s: Step): seq<Member>
  {
    match s
    case ToDataframe => []
    case ToNumpy(d) => [Member("dtype", Str(d))]
  }

  /** The dictionary `to_json` serialises. */
  function Signature(s: Step): Value
  {
    Obj([Member(ClassName(s), Obj(Params(s)))])
  }

  /**
   * `to_json()`: `json.dumps` of the signature dictionary. The text is plain
   * ASCII and decodes back to the one-member object naming the step's class
   * and parameters.
   */
  function ToJson(s: Step): (text: string)
    ensures Decode(text) == Some(Obj([Member(ClassName(s), Obj(Params(s)))]))
    ensures IsAscii(text)
  {
    DecodeEncode(Signature(s));
    EncodeAscii(Signature(s));
    Encode(Signature(s))
  }

  /** `ToDataframe.to_json()` is one fixed text. */
  lemma ToDataframeJson(s: Step)
    requires s.ToDataframe?
    ensures ToJson(s) == "{\"ToDataframe\": {}}"
  {
    var name := ClassName(s);
    SignatureText(name, []);
    PlainName(name);
    QuoteText(name);
    DataframeText(Quote(name));
  }

  /** `ToNumpy.to_json()` is fixed text around the JSON string literal of the element type. */
  lemma ToNumpyJson(s: Step)
    requires s.ToNumpy?
    ensures ToJson(s) == "{\"ToNumpy\": {\"dtype\": " + Quote(s.dtype) + "}}"
  {
    var name, key := ClassName(s), Params(s)[0].key;
    SignatureText(name, Params(s));
    PlainName(name);
    QuoteText(name);
    PlainName(key);
    QuoteText(key);
    OneStringMember(key, s.dtype);
    NumpyText(Quote(name), Quote(key), Quote(s.dtype));
  }

  /** The class names and the parameter name are written without escapes. */
  lemma PlainName(x: string)
    requires x == "ToDataframe" || x == "ToNumpy" || x == "dtype"
    ensures EscapeAll(x) == x
  {
    if x == "ToDataframe" {
      assert Letters("ToDataframe");
      EscapeLetters("ToDataframe");
    } else if x == "ToNumpy" {
      assert Letters("ToNumpy");
      EscapeLetters("ToNumpy");
    } else {
      assert Letters("dtype");
      EscapeLetters("dtype");
    }
  }

  lemma QuoteText(x: string)
    requires EscapeAll(x) == x
    ensures Quote(x) == "\"" + x + "\""
  {
  }

  /** The ToDataframe signature's text, regrouped. */
  lemma DataframeText(name: string)
    requires name == "\"" + "ToDataframe" + "\""
    ensures "{" + name + ": {" + [] + "}}" == "{\"ToDataframe\": {}}"
  {
  }

  /** The ToNumpy signature's text, regrouped around the element type's literal. */
  lemma NumpyText(name: string, key: string, q: string)
    requires name == "\"" + "ToNumpy" + "\"" && key == "\"" + "dtype" + "\""
    ensures "{" + name + ": {" + (key + ": " + q) + "}}" == "{\"ToNumpy\": {\"dtype\": " + q + "}}"
  {
  }

  /** The text of a signature object, for any class name and parameters. */
  lemma SignatureText(name: string, params: seq<Member>)
    ensures Encode(Obj([Member(name, Obj(params))])) == "{" + Quote(name) + ": {" + EncodeMembers(params) + "}}"
  {
    var m := Member(name, Obj(params));
    assert Encode(Obj(params)) == ['{'] + EncodeMembers(params) + ['}'];
    assert EncodeMember(m) == Quote(name) + [':', ' '] + Encode(Obj(params));
    assert EncodeMembers([m]) == EncodeMember(m);
    assert Encode(Obj([m])) == ['{'] + EncodeMembers([m]) + ['}'];
  }

  /** ASCII letters only. */
  predicate Letters(x: string)
  {
    x == [] || (('a' <= x[0] <= 'z' || 'A' <= x[0] <= 'Z') && Letters(x[1..]))
  }

  /** `json.dumps` writes letters as they are. */
  lemma {:induction false} EscapeLetters(x: string)
    requires Letters(x)
    ensures EscapeAll(x) == x
    decreases |x|
  {
    if x != [] {
      EscapeLetters(x[1..]);
      assert [x[0]] + x[1..] == x;
    }
  }

  lemma OneStringMember(key: string, x: string)
    ensures EncodeMembers([Member(key, Str(x))]) == Quote(key) + ": " + Quote(x)
  {
    var m := Member(key, Str(x));
    assert EncodeMembers([m]) == EncodeMember(m);
    assert Encode(Str(x)) == Quote(x);
  }

  /** Equal steps have equal signatures, and different steps different ones. */
  lemma SignatureInjective(s1: Step, s2: Step)
    ensures ToJson(s1) == ToJson(s2) <==> s1 == s2
  {
    if ToJson(s1) == ToJson(s2) {
      EncodeInjective(Signature(s1), Signature(s2));
      assert ClassName(s1) == Signature(s1).members[0].key;
      assert Params(s1) == Signature(s1).members[0].value.members;
      if s1.ToNumpy? {
        assert s1.dtype == Params(s1)[0].value.s;
      }
    }
  }

  /** In particular, the `ToNumpy` signature determines the element type, and is never the `ToDataframe` one. */
  lemma DtypeDetermined(d1: string, d2: string)
    ensures ToJson(ToNumpy(d1)) == ToJson(ToNumpy(d2)) <==> d1 == d2
    ensures ToJson(ToNumpy(d1)) != ToJson(ToDataframe)
  {
    SignatureInjective(ToNumpy(d1), ToNumpy(d2));
    SignatureInjective(ToNumpy(d1), ToDataframe);
  }

  /**
   * `ToNumpy.run`: each frame converted with the step's element type, in
   * order. The conversion itself is a parameter, `None` where it raises (an
   * element type it does not understand); the first such frame makes the
   * whole call fail. Keyword arguments play no part.
   */
  function Run<F, A>(s: Step, data: seq<F>, convert: (F, string) -> Option<A>): (r: Option<seq<A>>)
    requires s.ToNumpy?
    ensures r.Some? <==> forall i :: 0 <= i < |data| ==> convert(data[i], s.dtype).Some?
    ensures r.Some? ==> |r.value| == |data|
    ensures r.Some? ==> forall i :: 0 <= i < |data| ==> r.value[i] == convert(data[i], s.dtype).value
  {
    if data == [] then Some([])
    else
      match convert(data[0], s.dtype)
      case None => None
      case Some(a) =>
        match Run(s, data[1..], convert)
        case None =>
          assert !forall i :: 0 <= i < |data| - 1 ==> convert(data[1..][i], s.dtype).Some?;
          None
        case Some(rest) => Some([a] + rest)
  }
}

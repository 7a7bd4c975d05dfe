/**
 * A signed statement as text (`recordingClaim.ts`, `signing.ts`): the canonical JSON it is stored as,
 * and the one base64url string it travels in.
 */
module SignedStatement {
  import opened Wrappers
  import opened JsonText
  import opened CanonicalJson
  import Base64Url

  const PAYLOAD: Text := [112, 97, 121, 108, 111, 97, 100]
  const SIGNATURE: Text := [115, 105, 103, 110, 97, 116, 117, 114, 101]
  const BYTE_ORDER_MARK: unit := 0xfeff

  datatype Signed = Signed(payload: Value, signature: Text)

  function AsValue(s: Signed): Value {
    Obj([Member(PAYLOAD, s.payload), Member(SIGNATURE, Str(s.signature))])
  }

  /** The text whose bytes `statementBytes` returns; `None` where it throws. */
  function StatementText(codec: Numbers, s: Signed): Option<Text> {
    CanonicalJson.CanonicalJson(codec, AsValue(s))
  }

  /** The member with a key, `Undefined` when there is none. */
  function Field(ms: seq<Member>, key: Text): Value {
    if ms == [] then Undefined else if ms[0].key == key then ms[0].value else Field(ms[1..], key)
  }

  predicate HasField(ms: seq<Member>, key: Text) {
    exists i :: 0 <= i < |ms| && ms[i].key == key
  }

  /** `parseSignedStatement`, after the bytes are decoded. */
  function ParseSigned(codec: Numbers, text: Text): Option<Signed> {
    match JsonParse(codec, text)
    case None => None
    case Some(v) => FromValue(v)
  }

  /** The wrapper, if the value is one. */
  function FromValue(v: Value): Option<Signed> {
    if v.Obj? && Field(v.members, SIGNATURE).Str? && HasField(v.members, PAYLOAD)
    then Some(Signed(Field(v.members, PAYLOAD), Field(v.members, SIGNATURE).text))
    else None
  }

  lemma NormOfSigned(s: Signed)
    ensures s.payload != Undefined ==>
      Norm(AsValue(s)) == Obj([Member(PAYLOAD, Norm(s.payload)), Member(SIGNATURE, Str(s.signature))])
    ensures s.payload == Undefined ==> Norm(AsValue(s)) == Obj([Member(SIGNATURE, Str(s.signature))])
  {
    var ms := AsValue(s).members;
    assert ms[1..] == [Member(SIGNATURE, Str(s.signature))] && ms[1..][1..] == [];
    assert PAYLOAD[0] < SIGNATURE[0];
    assert SortedKeys(ms[1..]) == [SIGNATURE];
    NormMember(ms, 1);
    if s.payload != Undefined {
      assert SortedKeys(ms) == [PAYLOAD, SIGNATURE];
      NormMember(ms, 0);
    }
  }

  lemma KeysOfSigned(s: Signed)
    requires s.payload != Undefined
    ensures var ms := AsValue(s).members;
      && SortedKeys(ms) == [PAYLOAD, SIGNATURE]
      && Get(ms, PAYLOAD) == s.payload && Get(ms, SIGNATURE) == Str(s.signature)
  {
    var ms := AsValue(s).members;
    assert ms[1..] == [Member(SIGNATURE, Str(s.signature))] && ms[1..][1..] == [];
    assert PAYLOAD[0] < SIGNATURE[0];
    assert SortedKeys(ms[1..]) == [SIGNATURE];
    NormMember(ms, 0);
    NormMember(ms, 1);
  }

  /** An object of two members, from their keys and the texts of their values. */
  function ObjectOfTwo(first: Text, value: Text, second: Text, other: Text): Text {
    [OPEN_OBJECT] + (Quoted(first) + ([COLON] + (value + ([COMMA] + (Quoted(second) + ([COLON] + (other
      + [CLOSE_OBJECT])))))))
  }

  lemma PayloadIsAcceptable(s: Signed)
    requires s.payload != Undefined && Acceptable(AsValue(s))
    ensures Acceptable(s.payload)
  {
    assert AsValue(s).members[0].value == s.payload;
  }

  /** A statement with a payload is stored as an object of that and the signature, in this order. */
  lemma StatementTextIs(codec: Numbers, s: Signed)
    requires s.payload != Undefined && StatementText(codec, s).Some?
    ensures Acceptable(s.payload)
    ensures StatementText(codec, s)
      == Some(ObjectOfTwo(PAYLOAD, Print(codec, s.payload), SIGNATURE, Quoted(s.signature)))
  {
    PayloadIsAcceptable(s);
    KeysOfSigned(s);
    TextOfTwo(codec, AsValue(s), PAYLOAD, s.payload, SIGNATURE, s.signature);
  }

  lemma TextOfTwo(codec: Numbers, v: Value, first: Text, payload: Value, second: Text, signature: Text)
    requires v.Obj? && Acceptable(v) && Acceptable(payload) && SortedKeys(v.members) == [first, second]
    requires Get(v.members, first) == payload && Get(v.members, second) == Str(signature)
    ensures CanonicalJson.CanonicalJson(codec, v)
      == Some(ObjectOfTwo(first, Print(codec, payload), second, Quoted(signature)))
  {
    PrintObjectOfTwo(codec, v, first, second);
  }

  /** An object of two members, up to what follows it. */
  lemma PrintTwo(codec: Numbers, v: Value, first: Text, second: Text, end: Text)
    requires v.Obj? && Acceptable(v) && SortedKeys(v.members) == [first, second]
    ensures PrintMembers(codec, v, SortedKeys(v.members)) + end
      == Quoted(first) + ([COLON] + (Print(codec, Get(v.members, first))
        + ([COMMA] + (Quoted(second) + ([COLON] + (Print(codec, Get(v.members, second)) + end))))))
  {
    var keys := SortedKeys(v.members);
    assert keys[0..] == keys;
    PrintMembersAt(codec, v, 1, end);
    PrintMembersAt(codec, v, 0, end);
  }

  lemma PrintObjectOfTwo(codec: Numbers, v: Value, first: Text, second: Text)
    requires v.Obj? && Acceptable(v) && SortedKeys(v.members) == [first, second]
    ensures Print(codec, v)
      == ObjectOfTwo(first, Print(codec, Get(v.members, first)), second, Print(codec, Get(v.members, second)))
  {
    PrintTwo(codec, v, first, second, [CLOSE_OBJECT]);
    InBraces(PrintMembers(codec, v, SortedKeys(v.members)));
  }

  lemma InBraces(t: Text)
    ensures [OPEN_OBJECT] + t + [CLOSE_OBJECT] == [OPEN_OBJECT] + (t + [CLOSE_OBJECT])
  {
  }

  /**
   * A statement read back from its stored text is the one that was written, up to what canonical JSON
   * leaves out, and is written the same again, exactly when it has a payload and no array in that has a
   * hole. One without a payload is never read back.
   */
  lemma StatementRoundTrip(codec: Numbers, s: Signed)
    requires Sound(codec) && Keyed(s.payload) && StatementText(codec, s).Some?
    ensures var text := StatementText(codec, s).value;
      && (ParseSigned(codec, text) == Some(Signed(Norm(s.payload), s.signature)) <==>
        s.payload != Undefined && Dense(s.payload))
      && (s.payload == Undefined ==> ParseSigned(codec, text) == None)
      && (s.payload != Undefined && Dense(s.payload) ==>
        StatementText(codec, ParseSigned(codec, text).value) == Some(text))
  {
    var v := AsValue(s);
    SignedIsKeyed(s);
    RoundTrip(codec, v);
    PrintNorm(codec, v);
    FromNorm(s);
    NormIsDense(s.payload);
    if !Dense(s.payload) && ParseSigned(codec, StatementText(codec, s).value).Some? {
      FieldIsParsed(JsonParse(codec, StatementText(codec, s).value).value.members, PAYLOAD);
    }
  }

  lemma SignedIsKeyed(s: Signed)
    requires Keyed(s.payload)
    ensures Keyed(AsValue(s)) && (Dense(AsValue(s)) <==> Dense(s.payload))
  {
    var v := AsValue(s);
    assert PAYLOAD[0] != SIGNATURE[0];
    assert v.members[0].value == s.payload && v.members[1].value == Str(s.signature);
    assert Dense(v) ==> Dense(v.members[0].value);
  }

  lemma {:induction false} FieldIsParsed(ms: seq<Member>, key: Text)
    requires Parsed(Obj(ms))
    ensures Parsed(Field(ms, key))
    decreases |ms|
  {
    if ms != [] {
      assert Keyed(ms[0].value) && Dense(ms[0].value);
      forall i | 0 <= i < |ms[1..]|
        ensures Keyed(ms[1..][i].value) && Dense(ms[1..][i].value)
      {
        assert ms[1..][i] == ms[i + 1];
      }
      FieldIsParsed(ms[1..], key);
    }
  }

  lemma FromNorm(s: Signed)
    ensures s.payload == Undefined ==> FromValue(Norm(AsValue(s))) == None
    ensures s.payload != Undefined ==>
      FromValue(Norm(AsValue(s))) == Some(Signed(Norm(s.payload), s.signature))
      && AsValue(Signed(Norm(s.payload), s.signature)) == Norm(AsValue(s))
  {
    NormOfSigned(s);
    FieldsOf(Norm(s.payload), s.signature);
  }

  lemma FieldsOf(payload: Value, signature: Text)
    ensures var both, one := [Member(PAYLOAD, payload), Member(SIGNATURE, Str(signature))],
      [Member(SIGNATURE, Str(signature))];
      && Field(both, PAYLOAD) == payload && Field(both, SIGNATURE) == Str(signature) && HasField(both, PAYLOAD)
      && Field(one, SIGNATURE) == Str(signature) && !HasField(one, PAYLOAD)
  {
    var both := [Member(PAYLOAD, payload), Member(SIGNATURE, Str(signature))];
    assert PAYLOAD[0] != SIGNATURE[0];
    assert both[0].key == PAYLOAD && both[1..] == [Member(SIGNATURE, Str(signature))];
  }

  /** `isCanonical`: the wrapper that is read, without its other members, is written back as the same text. */
  predicate IsCanonicalStatement(codec: Numbers, text: Text) {
    var s := ParseSigned(codec, text);
    s.Some? && StatementText(codec, s.value) == Some(text)
  }

  /** The texts that pass are those a statement with a payload, and no hole in it, is stored as. */
  lemma CanonicalStatements(codec: Numbers, text: Text)
    requires Sound(codec)
    ensures IsCanonicalStatement(codec, text)
      <==> exists s: Signed :: s.payload != Undefined && Parsed(s.payload) && StatementText(codec, s) == Some(text)
  {
    if IsCanonicalStatement(codec, text) {
      var s := ParseSigned(codec, text).value;
      FieldIsParsed(JsonParse(codec, text).value.members, PAYLOAD);
      StatementRoundTrip(codec, s);
    }
    if s: Signed :| s.payload != Undefined && Parsed(s.payload) && StatementText(codec, s) == Some(text) {
      StatementRoundTrip(codec, s);
    }
  }

  // ---- The text form of a header ----

  /** UTF-8. The decoder drops a byte order mark and fails on what is not UTF-8. */
  datatype Utf8 = Utf8(encode: Text -> seq<Base64Url.byte>, decode: seq<Base64Url.byte> -> Option<Text>)

  /** Decoding undoes encoding on text without lone surrogates that does not begin with the mark. */
  ghost predicate Faithful(u: Utf8) {
    forall t: Text :: WellFormed(t) && (t == [] || t[0] != BYTE_ORDER_MARK) ==> u.decode(u.encode(t)) == Some(t)
  }

  /** `encodeSignedStatement`. */
  function EncodeSigned(codec: Numbers, u: Utf8, s: Signed): Option<string> {
    match StatementText(codec, s)
    case None => None
    case Some(text) => Some(Base64Url.Encode(u.encode(text)))
  }

  /** `decodeSignedStatement`. */
  ghost function DecodeSigned(codec: Numbers, u: Utf8, text: string): Option<Signed> {
    match Base64Url.Decode(text)
    case None => None
    case Some(bytes) =>
      match u.decode(bytes)
      case None => None
      case Some(json) => ParseSigned(codec, json)
  }

  lemma Joined(a: Text, b: Text)
    requires WellFormed(a) && WellFormed(b)
    ensures WellFormed(a + b)
  {
    var t := a + b;
    forall i | 0 <= i < |t|
      ensures Paired(t, i)
    {
      if i < |a| {
        assert Paired(a, i);
      } else {
        assert Paired(b, i - |a|);
      }
    }
  }

  /** No surrogates at all. */
  predicate Plain(t: Text) {
    forall i :: 0 <= i < |t| ==> !High(t[i]) && !Low(t[i])
  }

  /** What follows a pair, or a character that is no half of one. */
  lemma TailIsWellFormed(s: Text, k: nat)
    requires WellFormed(s) && s != [] && k == (if High(s[0]) then 2 else 1)
    ensures k <= |s| && WellFormed(s[k..]) && !Low(s[0]) && (k == 2 ==> Low(s[1]))
  {
    assert Paired(s, 0);
    var rest := s[k..];
    forall i | 0 <= i < |rest|
      ensures Paired(rest, i)
    {
      assert Paired(s, i + k);
      if i == 0 && k == 2 {
        assert Paired(s, 1);
      }
    }
  }

  lemma EscapedOne(s: Text, rest: Text)
    requires s != [] && s[1..] == rest && (High(s[0]) || Low(s[0]))
    ensures Escaped(s) == [s[0]] + Escaped(rest)
  {
  }

  lemma TwoInFront(a: unit, b: unit, rest: Text)
    ensures [a] + ([b] + rest) == [a, b] + rest
  {
  }

  lemma EscapedPair(s: Text)
    requires |s| >= 2 && High(s[0]) && Low(s[1])
    ensures Escaped(s) == [s[0], s[1]] + Escaped(s[2..])
  {
    EscapedOne(s, s[1..]);
    EscapedOne(s[1..], s[2..]);
    TwoInFront(s[0], s[1], Escaped(s[2..]));
  }

  lemma PairIsWellFormed(high: unit, low: unit)
    requires High(high) && Low(low)
    ensures WellFormed([high, low])
  {
    var t := [high, low];
    assert Paired(t, 0) && Paired(t, 1);
  }

  lemma {:induction false} EscapedIsWellFormed(s: Text)
    requires WellFormed(s)
    ensures WellFormed(Escaped(s))
    decreases |s|
  {
    if s != [] {
      if High(s[0]) {
        TailIsWellFormed(s, 2);
        EscapedIsWellFormed(s[2..]);
        EscapedPair(s);
        PairIsWellFormed(s[0], s[1]);
        Joined([s[0], s[1]], Escaped(s[2..]));
      } else {
        TailIsWellFormed(s, 1);
        EscapedIsWellFormed(s[1..]);
        assert Plain(Escape(s[0]));
        Joined(Escape(s[0]), Escaped(s[1..]));
      }
    }
  }

  lemma QuotedIsWellFormed(s: Text)
    requires WellFormed(s)
    ensures WellFormed(Quoted(s))
  {
    EscapedIsWellFormed(s);
    Joined([QUOTE], Escaped(s));
    Joined([QUOTE] + Escaped(s), [QUOTE]);
  }

  /** Canonical text has no lone surrogate. */
  lemma {:induction false} PrintIsWellFormed(codec: Numbers, v: Value)
    requires Sound(codec) && Acceptable(v)
    ensures WellFormed(Print(codec, v))
    decreases v
  {
    match v
    case Str(s) => QuotedIsWellFormed(s);
    case Num(n) =>
      var w := codec.write(if n == NegativeZero then 0 else n.bits);
      assert Plain(w);
    case Arr(items) =>
      ItemsAreWellFormed(codec, v, 0);
      Joined([OPEN_LIST], PrintItems(codec, v, 0));
      Joined([OPEN_LIST] + PrintItems(codec, v, 0), [CLOSE_LIST]);
    case Obj(ms) =>
      MembersAreWellFormed(codec, v, SortedKeys(ms));
      Joined([OPEN_OBJECT], PrintMembers(codec, v, SortedKeys(ms)));
      Joined([OPEN_OBJECT] + PrintMembers(codec, v, SortedKeys(ms)), [CLOSE_OBJECT]);
    case _ =>
  }

  lemma {:induction false} ItemsAreWellFormed(codec: Numbers, v: Value, i: nat)
    requires Sound(codec) && v.Arr? && Acceptable(v) && i <= |v.items|
    ensures WellFormed(PrintItems(codec, v, i))
    decreases v, |v.items| - i + 1
  {
    if i < |v.items| {
      if v.items[i] != Hole {
        PrintIsWellFormed(codec, v.items[i]);
      }
      if i + 1 < |v.items| {
        ItemsAreWellFormed(codec, v, i + 1);
        Joined([COMMA], PrintItems(codec, v, i + 1));
        Joined(PrintItem(codec, v, i), [COMMA] + PrintItems(codec, v, i + 1));
      } else {
        Joined(PrintItem(codec, v, i), []);
      }
    }
  }

  lemma {:induction false} MembersAreWellFormed(codec: Numbers, v: Value, keys: seq<Text>)
    requires Sound(codec) && v.Obj? && Acceptable(v) && forall k :: k in keys ==> k in SortedKeys(v.members)
    ensures WellFormed(PrintMembers(codec, v, keys))
    decreases v, |keys|
  {
    if keys != [] {
      assert keys[0] in keys;
      var i := Find(v.members, keys[0]);
      var value := Get(v.members, keys[0]);
      assert v.members[i].value == value;
      QuotedIsWellFormed(keys[0]);
      PrintIsWellFormed(codec, value);
      var first := Quoted(keys[0]) + [COLON] + Print(codec, value);
      Joined(Quoted(keys[0]), [COLON]);
      Joined(Quoted(keys[0]) + [COLON], Print(codec, value));
      if |keys| == 1 {
        Joined(first, []);
      } else {
        MembersAreWellFormed(codec, v, keys[1..]);
        Joined([COMMA], PrintMembers(codec, v, keys[1..]));
        Joined(first, [COMMA] + PrintMembers(codec, v, keys[1..]));
      }
    }
  }

  /** A statement that went through the header is the one that was sent, exactly when it has a payload without holes. */
  lemma HeaderRoundTrip(codec: Numbers, u: Utf8, s: Signed)
    requires Sound(codec) && Faithful(u) && Keyed(s.payload) && EncodeSigned(codec, u, s).Some?
    ensures DecodeSigned(codec, u, EncodeSigned(codec, u, s).value) == Some(Signed(Norm(s.payload), s.signature))
      <==> s.payload != Undefined && Dense(s.payload)
  {
    var text := StatementText(codec, s).value;
    PrintIsWellFormed(codec, AsValue(s));
    assert text[0] == OPEN_OBJECT;
    Base64Url.DecodeEncode(u.encode(text));
    StatementRoundTrip(codec, s);
  }
}

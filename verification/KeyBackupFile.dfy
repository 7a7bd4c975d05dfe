/** The file form of a person key backup: the JSON that `backupToFileText` writes and `parseBackupText` reads. */
module KeyBackupFile {
  import opened Wrappers
  import opened JsonText
  import opened CanonicalJson
  import Base64Url
  import KeyBackup
  import SignedStatement

  // ---- Strings as code units ----

  function Units(c: char): Text {
    var u := c as int;
    if u < 0x10000 then [u] else [0xd800 + (u - 0x10000) / 0x400, 0xdc00 + (u - 0x10000) % 0x400]
  }

  function Utf16(t: string): Text {
    if t == "" then [] else Units(t[0]) + Utf16(t[1..])
  }

  function FromPair(high: unit, low: unit): char
    requires High(high) && Low(low)
  {
    var h: int, l: int := high, low;
    (0x10000 + (h - 0xd800) * 0x400 + (l - 0xdc00)) as char
  }

  /** The replacement character stands for a lone surrogate, which no format name and no backup text has. */
  function FromUtf16(t: Text): string {
    if t == [] then ""
    else if High(t[0]) && |t| >= 2 && Low(t[1]) then
      [FromPair(t[0], t[1])] + FromUtf16(t[2..])
    else [if High(t[0]) || Low(t[0]) then 0xfffd as char else t[0] as char] + FromUtf16(t[1..])
  }

  predicate Ascii(t: Text) {
    forall i :: 0 <= i < |t| ==> t[i] < 128
  }

  predicate AsciiString(s: string) {
    forall i :: 0 <= i < |s| ==> s[i] as int < 128
  }

  lemma {:induction false} StringOfAscii(t: Text)
    requires Ascii(t)
    ensures |FromUtf16(t)| == |t| && forall i :: 0 <= i < |t| ==> FromUtf16(t)[i] as int == t[i]
  {
    if t != [] {
      StringOfAscii(t[1..]);
      assert FromUtf16(t) == [t[0] as char] + FromUtf16(t[1..]);
      forall i | 0 <= i < |t|
        ensures FromUtf16(t)[i] as int == t[i]
      {
        if i > 0 {
          assert FromUtf16(t)[i] == FromUtf16(t[1..])[i - 1];
        }
      }
    }
  }

  lemma AsciiAsString(t: Text)
    requires Ascii(t)
    ensures |FromUtf16(t)| == |t| && forall i :: 0 <= i < |t| ==> FromUtf16(t)[i] as int == t[i]
    ensures Utf16(FromUtf16(t)) == t
  {
    StringOfAscii(t);
    UnitsOfAscii(FromUtf16(t));
  }

  lemma {:induction false} UnitsOfAscii(s: string)
    requires AsciiString(s)
    ensures |Utf16(s)| == |s| && forall i :: 0 <= i < |s| ==> Utf16(s)[i] == s[i] as int
  {
    if s != "" {
      UnitsOfAscii(s[1..]);
      forall i | 0 <= i < |s|
        ensures Utf16(s)[i] == s[i] as int
      {
        if i > 0 {
          assert Utf16(s)[i] == Utf16(s[1..])[i - 1];
        }
      }
    }
  }

  lemma AsciiAsUnits(s: string)
    requires AsciiString(s)
    ensures Ascii(Utf16(s)) && WellFormed(Utf16(s)) && FromUtf16(Utf16(s)) == s
  {
    UnitsOfAscii(s);
    AsciiAsString(Utf16(s));
  }

  // ---- JSON.stringify(object, null, 2) ----

  /** A member's value that is written on one line. */
  predicate Flat(v: Value) {
    (v.Str? && WellFormed(v.text)) || (v.Num? && v.number.Finite?)
  }

  predicate AllFlat(ms: seq<Member>) {
    forall i :: 0 <= i < |ms| ==> Flat(ms[i].value)
  }

  function Line(codec: Numbers, m: Member): Text
    requires Flat(m.value)
  {
    [10, 32, 32] + (Quoted(m.key) + ([COLON] + ([32] + Print(codec, m.value))))
  }

  function Lines(codec: Numbers, ms: seq<Member>): Text
    requires ms != [] && AllFlat(ms)
  {
    Line(codec, ms[0]) + (if |ms| == 1 then [10] else [COMMA] + Lines(codec, ms[1..]))
  }

  function Indented(codec: Numbers, ms: seq<Member>): Text
    requires ms != [] && AllFlat(ms)
  {
    [OPEN_OBJECT] + Lines(codec, ms) + [CLOSE_OBJECT]
  }

  // ---- Reading it back ----

  lemma SpaceSkipped(codec: Numbers, t: Text)
    ensures ParseValue(codec, [32] + t) == ParseValue(codec, t)
  {
    assert ([32] + t)[1..] == t;
  }

  lemma IndentSkipped(t: Text)
    requires t != [] && !Space(t[0])
    ensures SkipSpace([10, 32, 32] + t) == t && SkipSpace([10] + t) == t
  {
    assert ([10, 32, 32] + t)[1..] == [32, 32] + t;
    assert ([32, 32] + t)[1..] == [32] + t;
    assert ([32] + t)[1..] == t && ([10] + t)[1..] == t;
    assert SkipSpace([10] + t) == SkipSpace(t);
    assert SkipSpace([32] + t) == SkipSpace(t);
    assert SkipSpace([32, 32] + t) == SkipSpace([32] + t);
  }

  lemma LeadingSkipped(codec: Numbers, done: seq<Member>, quoted: Text)
    requires Parsed(Obj(done)) && quoted != [] && quoted[0] == QUOTE
    ensures ParseMembers(codec, done, [10, 32, 32] + quoted) == ParseMembers(codec, done, quoted)
  {
    IndentSkipped(quoted);
  }

  /** One line, up to what follows its value. */
  lemma ParseLine(codec: Numbers, done: seq<Member>, m: Member, after: Text)
    requires Sound(codec) && Parsed(Obj(done)) && Flat(m.value) && Delimited(after)
    requires forall d :: d in done ==> d.key != m.key
    requires var next := SkipSpace(after); next != [] && (next[0] == COMMA || next[0] == CLOSE_OBJECT)
    ensures Parsed(Obj(done + [m]))
    ensures var next := SkipSpace(after);
      ParseMembers(codec, done, Line(codec, m) + after)
      == if next[0] == COMMA then ParseMembers(codec, done + [m], next[1..]) else Some(Read(Obj(done + [m]), next[1..]))
  {
    var value := Print(codec, m.value) + after;
    var quoted := Quoted(m.key) + ([COLON] + ([32] + value));
    assert Line(codec, m) + after == [10, 32, 32] + quoted;
    LeadingSkipped(codec, done, quoted);
    SpaceSkipped(codec, value);
    ParsePrint(codec, m.value, after);
    MembersNext(codec, done, m.key, [32] + value, m.value, after);
  }

  lemma NextLine(codec: Numbers, done: seq<Member>, m: Member, more: Text)
    requires Sound(codec) && Parsed(Obj(done)) && Flat(m.value) && forall d :: d in done ==> d.key != m.key
    ensures Parsed(Obj(done + [m]))
    ensures ParseMembers(codec, done, Line(codec, m) + ([COMMA] + more)) == ParseMembers(codec, done + [m], more)
  {
    var after := [COMMA] + more;
    assert after[1..] == more && SkipSpace(after) == after;
    ParseLine(codec, done, m, after);
  }

  lemma LastLine(codec: Numbers, done: seq<Member>, m: Member, rest: Text)
    requires Sound(codec) && Parsed(Obj(done)) && Flat(m.value) && forall d :: d in done ==> d.key != m.key
    ensures ParseMembers(codec, done, Line(codec, m) + ([10] + ([CLOSE_OBJECT] + rest)))
      == Some(Read(Obj(done + [m]), rest))
  {
    var end := [CLOSE_OBJECT] + rest;
    IndentSkipped(end);
    assert end[1..] == rest;
    ParseLine(codec, done, m, [10] + end);
  }

  lemma {:induction false} ParseLines(codec: Numbers, done: seq<Member>, ms: seq<Member>, rest: Text)
    requires Sound(codec) && Parsed(Obj(done)) && ms != [] && AllFlat(ms) && DistinctKeys(done + ms)
    ensures ParseMembers(codec, done, Lines(codec, ms) + ([CLOSE_OBJECT] + rest)) == Some(Read(Obj(done + ms), rest))
    decreases |ms|
  {
    NewMember(done, ms);
    LinesAt(codec, ms, [CLOSE_OBJECT] + rest);
    if |ms| == 1 {
      assert done + [ms[0]] == done + ms;
      LastLine(codec, done, ms[0], rest);
    } else {
      assert done + [ms[0]] + ms[1..] == done + ms;
      NextLine(codec, done, ms[0], Lines(codec, ms[1..]) + ([CLOSE_OBJECT] + rest));
      ParseLines(codec, done + [ms[0]], ms[1..], rest);
    }
  }

  lemma LinesAt(codec: Numbers, ms: seq<Member>, end: Text)
    requires ms != [] && AllFlat(ms)
    ensures Lines(codec, ms) + end
      == Line(codec, ms[0]) + (if |ms| == 1 then [10] + end else [COMMA] + (Lines(codec, ms[1..]) + end))
  {
  }

  lemma NewMember(done: seq<Member>, ms: seq<Member>)
    requires ms != [] && DistinctKeys(done + ms)
    ensures forall d :: d in done ==> d.key != ms[0].key
  {
    var all := done + ms;
    assert all[|done|] == ms[0];
    forall d | d in done
      ensures d.key != ms[0].key
    {
      var i :| 0 <= i < |done| && done[i] == d;
      assert all[i] == d;
    }
  }

  lemma ObjectIsIndented(codec: Numbers, quoted: Text)
    requires quoted != [] && quoted[0] == QUOTE
    ensures ParseValue(codec, [OPEN_OBJECT] + ([10, 32, 32] + quoted)) == ParseMembers(codec, [], [10, 32, 32] + quoted)
  {
    var t := [OPEN_OBJECT] + ([10, 32, 32] + quoted);
    assert t[1..] == [10, 32, 32] + quoted;
    IndentSkipped(quoted);
  }

  lemma IndentedOpens(codec: Numbers, ms: seq<Member>)
    requires ms != [] && AllFlat(ms)
    ensures var body := Lines(codec, ms) + [CLOSE_OBJECT];
      ParseValue(codec, Indented(codec, ms)) == ParseMembers(codec, [], body)
  {
    var body := Lines(codec, ms) + [CLOSE_OBJECT];
    var quoted := body[3..];
    LinesAt(codec, ms, [CLOSE_OBJECT]);
    assert body == [10, 32, 32] + quoted && quoted[0] == QUOTE;
    assert Indented(codec, ms) == [OPEN_OBJECT] + body;
    ObjectIsIndented(codec, quoted);
  }

  lemma ParseIndented(codec: Numbers, ms: seq<Member>)
    requires Sound(codec) && ms != [] && AllFlat(ms) && DistinctKeys(ms)
    ensures JsonParse(codec, Indented(codec, ms)) == Some(Obj(ms))
  {
    IndentedOpens(codec, ms);
    assert [] + ms == ms && [CLOSE_OBJECT] + [] == [CLOSE_OBJECT];
    ParseLines(codec, [], ms, []);
  }

  // ---- The file ----

  /** The double 1. */
  const ONE_BITS: nat := 0x3ff0000000000000

  // The keys, by code unit: `format`, `version`, `createdAt`, `publicKey`, `backup`, `help`.
  const FORMAT: Text := [102, 111, 114, 109, 97, 116]
  const VERSION: Text := [118, 101, 114, 115, 105, 111, 110]
  const CREATED_AT: Text := [99, 114, 101, 97, 116, 101, 100, 65, 116]
  const PUBLIC_KEY: Text := [112, 117, 98, 108, 105, 99, 75, 101, 121]
  const BACKUP: Text := [98, 97, 99, 107, 117, 112]
  const HELP: Text := [104, 101, 108, 112]

  lemma Spells(t: Text, s: string)
    requires AsciiString(s) && |t| == |s| && forall i :: 0 <= i < |t| ==> t[i] == s[i] as int
    ensures t == Utf16(s)
  {
    UnitsOfAscii(s);
  }

  /** The code units of the keys that are read spell them. */
  lemma KeysAreSpelled()
    ensures FORMAT == Utf16("format") && BACKUP == Utf16("backup")
  {
    Spells(FORMAT, "format");
    Spells(BACKUP, "backup");
  }

  lemma OtherKeysAreSpelled()
    ensures VERSION == Utf16("version") && HELP == Utf16("help")
  {
    Spells(VERSION, "version");
    Spells(HELP, "help");
  }

  lemma LongKeysAreSpelled()
    ensures CREATED_AT == Utf16("createdAt") && PUBLIC_KEY == Utf16("publicKey")
  {
    Spells(CREATED_AT, "createdAt");
    Spells(PUBLIC_KEY, "publicKey");
  }

  lemma WrapperKeysAreSpelled()
    ensures SignedStatement.PAYLOAD == Utf16("payload") && SignedStatement.SIGNATURE == Utf16("signature")
  {
    Spells(SignedStatement.PAYLOAD, "payload");
    Spells(SignedStatement.SIGNATURE, "signature");
  }

  function Field(key: Text, value: string): Member {
    Member(key, Str(Utf16(value)))
  }

  function SixMembers(format: string, createdAt: string, publicKey: string, backup: string, help: string): seq<Member> {
    [ Field(FORMAT, format), Member(VERSION, Num(Finite(ONE_BITS))), Field(CREATED_AT, createdAt),
      Field(PUBLIC_KEY, publicKey), Field(BACKUP, backup), Field(HELP, help)]
  }

  function FileMembers(b: KeyBackup.Backup, createdAt: string, help: string): seq<Member> {
    SixMembers(KeyBackup.FILE_FORMAT, createdAt, Base64Url.Encode(b.publicKey), KeyBackup.ToText(b), help)
  }

  lemma DigitsAreAscii(t: string)
    requires Base64Url.IsDigits(t)
    ensures AsciiString(t)
  {
  }

  lemma TextIsAscii(b: KeyBackup.Backup)
    ensures AsciiString(KeyBackup.ToText(b))
  {
    DigitsAreAscii(Base64Url.Encode(KeyBackup.Encode(b)));
  }

  lemma FieldIsAscii(key: Text, value: string)
    requires Ascii(key) && AsciiString(value)
    ensures Flat(Field(key, value).value) && AsciiMember(Field(key, value))
  {
    AsciiAsUnits(value);
  }

  lemma SixAreFlat(format: string, createdAt: string, publicKey: string, backup: string, help: string)
    requires AsciiString(format) && AsciiString(createdAt) && AsciiString(publicKey) && AsciiString(backup)
    requires AsciiString(help)
    ensures var ms := SixMembers(format, createdAt, publicKey, backup, help);
      AllFlat(ms) && DistinctKeys(ms) && forall i :: 0 <= i < |ms| ==> AsciiMember(ms[i])
  {
    FieldIsAscii(FORMAT, format);
    FieldIsAscii(CREATED_AT, createdAt);
    FieldIsAscii(PUBLIC_KEY, publicKey);
    FieldIsAscii(BACKUP, backup);
    FieldIsAscii(HELP, help);
    FirstUnits(SixMembers(format, createdAt, publicKey, backup, help));
  }

  lemma SixFields(format: string, createdAt: string, publicKey: string, backup: string, help: string)
    requires AsciiString(format) && AsciiString(backup)
    ensures var v := Obj(SixMembers(format, createdAt, publicKey, backup, help));
      StringField(v, FORMAT) == Some(format) && StringField(v, BACKUP) == Some(backup)
  {
    var ms := SixMembers(format, createdAt, publicKey, backup, help);
    FirstUnits(ms);
    FieldAt(ms, 0);
    FieldAt(ms, 4);
    AsciiAsUnits(format);
    AsciiAsUnits(backup);
  }

  lemma {:induction false} FieldAt(ms: seq<Member>, i: nat)
    requires DistinctKeys(ms) && i < |ms|
    ensures SignedStatement.Field(ms, ms[i].key) == ms[i].value
    decreases |ms|
  {
    if i > 0 {
      FieldAt(ms[1..], i - 1);
    }
  }

  lemma FormatIsAscii()
    ensures AsciiString(KeyBackup.FILE_FORMAT)
  {
  }

  lemma MembersAreFlat(b: KeyBackup.Backup, createdAt: string, help: string)
    requires AsciiString(createdAt) && AsciiString(help)
    ensures var ms := FileMembers(b, createdAt, help);
      AllFlat(ms) && DistinctKeys(ms) && forall i :: 0 <= i < |ms| ==> AsciiMember(ms[i])
    ensures var v := Obj(FileMembers(b, createdAt, help));
      StringField(v, FORMAT) == Some(KeyBackup.FILE_FORMAT) && StringField(v, BACKUP) == Some(KeyBackup.ToText(b))
  {
    var format, publicKey, backup := KeyBackup.FILE_FORMAT, Base64Url.Encode(b.publicKey), KeyBackup.ToText(b);
    FormatIsAscii();
    DigitsAreAscii(publicKey);
    TextIsAscii(b);
    SixAreFlat(format, createdAt, publicKey, backup, help);
    SixFields(format, createdAt, publicKey, backup, help);
  }

  /** Six keys that begin differently. */
  lemma FirstUnits(ms: seq<Member>)
    requires |ms| == 6 && ms[0].key == FORMAT && ms[1].key == VERSION && ms[2].key == CREATED_AT
    requires ms[3].key == PUBLIC_KEY && ms[4].key == BACKUP && ms[5].key == HELP
    ensures DistinctKeys(ms)
  {
    assert FORMAT[0] == 102 && VERSION[0] == 118 && CREATED_AT[0] == 99;
    assert PUBLIC_KEY[0] == 112 && BACKUP[0] == 98 && HELP[0] == 104;
  }

  /** `backupToFileText`. The ISO form of the time and the help sentence are ASCII. */
  function ToFileText(codec: Numbers, b: KeyBackup.Backup, createdAt: string, help: string): string
    requires AsciiString(createdAt) && AsciiString(help)
  {
    MembersAreFlat(b, createdAt, help);
    FromUtf16(Indented(codec, FileMembers(b, createdAt, help))) + "\n"
  }

  /** The fields of the file that are read: `JSON.parse`, and `json?.format` and `json.backup`. */
  function ReadFile(codec: Numbers, text: string): Option<KeyBackup.File> {
    match JsonParse(codec, Utf16(text))
    case None => None
    case Some(v) => Some(KeyBackup.File(StringField(v, FORMAT), StringField(v, BACKUP)))
  }

  function StringField(v: Value, key: Text): Option<string> {
    if v.Obj? && SignedStatement.Field(v.members, key).Str?
    then Some(FromUtf16(SignedStatement.Field(v.members, key).text))
    else None
  }

  // ---- ASCII ----

  lemma {:induction false} EscapedIsAscii(s: Text)
    requires Ascii(s)
    ensures Ascii(Escaped(s))
  {
    if s != [] {
      EscapedIsAscii(s[1..]);
      assert Ascii(Escape(s[0]));
    }
  }

  predicate AsciiMember(m: Member) {
    Ascii(m.key) && (m.value.Str? ==> Ascii(m.value.text))
  }

  lemma LineIsAscii(codec: Numbers, m: Member)
    requires Sound(codec) && Flat(m.value) && AsciiMember(m)
    ensures Ascii(Line(codec, m))
  {
    EscapedIsAscii(m.key);
    if m.value.Str? {
      EscapedIsAscii(m.value.text);
    } else {
      var w := codec.write(m.value.number.bits);
      assert forall i :: 0 <= i < |w| ==> NumberUnit(w[i]);
    }
    assert Ascii(Print(codec, m.value));
  }

  lemma {:induction false} LinesAreAscii(codec: Numbers, ms: seq<Member>)
    requires Sound(codec) && ms != [] && AllFlat(ms) && forall i :: 0 <= i < |ms| ==> AsciiMember(ms[i])
    ensures Ascii(Lines(codec, ms))
    decreases |ms|
  {
    LineIsAscii(codec, ms[0]);
    if |ms| > 1 {
      LinesAreAscii(codec, ms[1..]);
    }
  }

  lemma IndentedIsAscii(codec: Numbers, ms: seq<Member>)
    requires Sound(codec) && ms != [] && AllFlat(ms) && forall i :: 0 <= i < |ms| ==> AsciiMember(ms[i])
    ensures var units := Indented(codec, ms);
      Ascii(units) && |units| >= 2 && units[0] == OPEN_OBJECT && units[|units| - 1] == CLOSE_OBJECT
  {
    LinesAreAscii(codec, ms);
  }

  // ---- The round trip ----

  lemma FileTrims(codec: Numbers, ms: seq<Member>, before: string, after: string)
    requires Sound(codec) && ms != [] && AllFlat(ms) && forall i :: 0 <= i < |ms| ==> AsciiMember(ms[i])
    requires KeyBackup.Blank(before) && KeyBackup.Blank(after)
    ensures var text := FromUtf16(Indented(codec, ms));
      Utf16(text) == Indented(codec, ms) && "{" <= text && KeyBackup.Trim(before + (text + "\n") + after) == text
  {
    var units := Indented(codec, ms);
    var text := FromUtf16(units);
    IndentedIsAscii(codec, ms);
    AsciiAsString(units);
    assert before + (text + "\n") + after == before + text + ("\n" + after);
    KeyBackup.TrimBlanks(before, text, "\n" + after);
  }

  /** What is written to a file is read back from it, whatever white space is put around it. */
  lemma FileRoundTrip(codec: Numbers, b: KeyBackup.Backup, createdAt: string, help: string, before: string,
      after: string)
    requires Sound(codec) && KeyBackup.WellFormed(b) && AsciiString(createdAt) && AsciiString(help)
    requires KeyBackup.Blank(before) && KeyBackup.Blank(after)
    ensures KeyBackup.ParseBackupText(t => ReadFile(codec, t), before + ToFileText(codec, b, createdAt, help) + after)
      == KeyBackup.Ok(b)
  {
    var ms := FileMembers(b, createdAt, help);
    MembersAreFlat(b, createdAt, help);
    FileTrims(codec, ms, before, after);
    ParseIndented(codec, ms);
    assert ReadFile(codec, FromUtf16(Indented(codec, ms)))
        == Some(KeyBackup.File(Some(KeyBackup.FILE_FORMAT), Some(KeyBackup.ToText(b))));
    KeyBackup.FileReads(t => ReadFile(codec, t), b, before + ToFileText(codec, b, createdAt, help) + after);
  }

  lemma SixShow(format: string, createdAt: string, publicKey: string, backup: string, help: string)
    requires AsciiString(createdAt) && AsciiString(publicKey) && AsciiString(help)
    ensures var v := Obj(SixMembers(format, createdAt, publicKey, backup, help));
      && StringField(v, CREATED_AT) == Some(createdAt) && StringField(v, PUBLIC_KEY) == Some(publicKey)
      && StringField(v, HELP) == Some(help) && SignedStatement.Field(v.members, VERSION) == Num(Finite(ONE_BITS))
  {
    var ms := SixMembers(format, createdAt, publicKey, backup, help);
    FirstUnits(ms);
    FieldAt(ms, 1);
    FieldAt(ms, 2);
    FieldAt(ms, 3);
    FieldAt(ms, 5);
    AsciiAsUnits(createdAt);
    AsciiAsUnits(publicKey);
    AsciiAsUnits(help);
  }

  lemma NoMargin(t: string)
    ensures "" + t + "" == t
  {
  }

  lemma LinesParse(codec: Numbers, ms: seq<Member>)
    requires Sound(codec) && ms != [] && AllFlat(ms) && DistinctKeys(ms)
    requires forall i :: 0 <= i < |ms| ==> AsciiMember(ms[i])
    ensures JsonParse(codec, Utf16(KeyBackup.Trim(FromUtf16(Indented(codec, ms)) + "\n"))) == Some(Obj(ms))
  {
    FileTrims(codec, ms, "", "");
    NoMargin(FromUtf16(Indented(codec, ms)) + "\n");
    ParseIndented(codec, ms);
  }

  lemma FileParses(codec: Numbers, b: KeyBackup.Backup, createdAt: string, help: string)
    requires Sound(codec) && AsciiString(createdAt) && AsciiString(help)
    ensures JsonParse(codec, Utf16(KeyBackup.Trim(ToFileText(codec, b, createdAt, help))))
      == Some(Obj(FileMembers(b, createdAt, help)))
  {
    MembersAreFlat(b, createdAt, help);
    LinesParse(codec, FileMembers(b, createdAt, help));
  }

  /** The members that a reader of the file does not need say what they are named for. */
  ghost predicate Shows(v: Value, b: KeyBackup.Backup, createdAt: string, help: string) {
    && v.Obj? && SignedStatement.Field(v.members, VERSION) == Num(Finite(ONE_BITS))
    && StringField(v, CREATED_AT) == Some(createdAt) && StringField(v, HELP) == Some(help)
    && StringField(v, PUBLIC_KEY).Some? && Base64Url.Decode(StringField(v, PUBLIC_KEY).value) == Some(b.publicKey)
  }

  lemma MembersShow(b: KeyBackup.Backup, createdAt: string, help: string)
    requires AsciiString(createdAt) && AsciiString(help)
    ensures Shows(Obj(FileMembers(b, createdAt, help)), b, createdAt, help)
  {
    DigitsAreAscii(Base64Url.Encode(b.publicKey));
    SixShow(KeyBackup.FILE_FORMAT, createdAt, Base64Url.Encode(b.publicKey), KeyBackup.ToText(b), help);
    Base64Url.DecodeEncode(b.publicKey);
  }

  /** What the file shows to whoever opens it: the format's version, the time, the help and the record's own key. */
  lemma FileShows(codec: Numbers, b: KeyBackup.Backup, createdAt: string, help: string)
    requires Sound(codec) && AsciiString(createdAt) && AsciiString(help)
    ensures var v := JsonParse(codec, Utf16(KeyBackup.Trim(ToFileText(codec, b, createdAt, help))));
      v.Some? && Shows(v.value, b, createdAt, help)
  {
    FileParses(codec, b, createdAt, help);
    MembersShow(b, createdAt, help);
  }
}

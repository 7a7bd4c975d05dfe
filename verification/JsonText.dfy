/**
 * JavaScript values, and JSON text over UTF-16 code units: what `JSON.stringify` writes for one
 * string, and what `JSON.parse` reads (RFC 8259).
 */
module JsonText {
  import opened Wrappers

  type unit = x: int | 0 <= x < 0x10000
  type Text = seq<unit>

  const QUOTE: unit := 34
  const COMMA: unit := 44
  const COLON: unit := 58
  const OPEN_LIST: unit := 91
  const BACKSLASH: unit := 92
  const CLOSE_LIST: unit := 93
  const OPEN_OBJECT: unit := 123
  const CLOSE_OBJECT: unit := 125
  const TRUE_TEXT: Text := [116, 114, 117, 101]
  const FALSE_TEXT: Text := [102, 97, 108, 115, 101]
  const NULL_TEXT: Text := [110, 117, 108, 108]

  /** A double: not finite, `-0`, or any other one, named by its 64 bits. */
  datatype Number = NotFinite | NegativeZero | Finite(bits: nat)

  datatype Member = Member(key: Text, value: Value)

  /**
   * `Exotic` is anything that is not plain JSON data: a function, a date, a class instance. `Hole` is an
   * index an array has no item at.
   */
  datatype Value =
    | Null
    | Undefined
    | Bool(flag: bool)
    | Num(number: Number)
    | Str(text: Text)
    | Arr(items: seq<Value>)
    | Obj(members: seq<Member>)
    | Exotic
    | Hole

  predicate DistinctKeys(ms: seq<Member>) {
    forall i, j :: 0 <= i < j < |ms| ==> ms[i].key != ms[j].key
  }

  /** No object has one key twice, which JavaScript guarantees. */
  predicate Keyed(v: Value) {
    match v
    case Arr(items) => forall i :: 0 <= i < |items| ==> Keyed(items[i])
    case Obj(ms) => DistinctKeys(ms) && forall i :: 0 <= i < |ms| ==> Keyed(ms[i].value)
    case _ => true
  }

  /** No array has a hole. */
  predicate Dense(v: Value) {
    match v
    case Arr(items) => forall i :: 0 <= i < |items| ==> Dense(items[i])
    case Obj(ms) => forall i :: 0 <= i < |ms| ==> Dense(ms[i].value)
    case Hole => false
    case _ => true
  }

  /** What parsing can return. */
  predicate Parsed(v: Value) {
    Keyed(v) && Dense(v)
  }

  /** How numbers are written and read. `read` is `None` on text outside the JSON grammar. */
  datatype Numbers = Numbers(write: nat -> Text, read: Text -> Option<Number>)

  predicate NumberUnit(u: unit) {
    48 <= u <= 57 || u == 43 || u == 45 || u == 46 || u == 69 || u == 101
  }

  /** Reading undoes writing, and a written number uses only the characters of numbers. */
  ghost predicate Sound(codec: Numbers) {
    forall bits: nat ::
      && codec.read(codec.write(bits)) == Some(Finite(bits))
      && codec.write(bits) != []
      && forall i :: 0 <= i < |codec.write(bits)| ==> NumberUnit(codec.write(bits)[i])
  }

  /** What was read, and the text after it. */
  datatype Read<T> = Read(value: T, rest: Text)

  // ---- One string ----

  function Hex(d: nat): unit
    requires d < 16
  {
    if d < 10 then 48 + d else 87 + d
  }

  function HexValue(u: unit): (r: int)
    ensures -1 <= r < 16
  {
    if 48 <= u <= 57 then u - 48
    else if 97 <= u <= 102 then u - 87
    else if 65 <= u <= 70 then u - 55
    else -1
  }

  function Escape(c: unit): Text {
    if c == QUOTE || c == BACKSLASH then [BACKSLASH, c]
    else if c == 8 then [BACKSLASH, 98]
    else if c == 9 then [BACKSLASH, 116]
    else if c == 10 then [BACKSLASH, 110]
    else if c == 12 then [BACKSLASH, 102]
    else if c == 13 then [BACKSLASH, 114]
    else if c < 32 then [BACKSLASH, 117, 48, 48, Hex(c / 16), Hex(c % 16)]
    else [c]
  }

  function Escaped(s: Text): Text {
    if s == [] then [] else Escape(s[0]) + Escaped(s[1..])
  }

  function Quoted(s: Text): Text {
    [QUOTE] + Escaped(s) + [QUOTE]
  }

  /** The character after a backslash, when it stands for one code unit. */
  function Short(u: unit): Option<unit> {
    if u == QUOTE || u == BACKSLASH || u == 47 then Some(u)
    else if u == 98 then Some(8)
    else if u == 116 then Some(9)
    else if u == 110 then Some(10)
    else if u == 102 then Some(12)
    else if u == 114 then Some(13)
    else None
  }

  function ReadUnit(t: Text): (r: Option<Read<unit>>)
    requires t != []
    ensures r.Some? ==> |r.value.rest| < |t|
  {
    if t[0] != BACKSLASH then
      if t[0] < 32 then None else Some(Read(t[0], t[1..]))
    else if |t| >= 2 && Short(t[1]).Some? then Some(Read(Short(t[1]).value, t[2..]))
    else if |t| >= 6 && t[1] == 117 && forall i :: 2 <= i < 6 ==> HexValue(t[i]) >= 0 then
      var high, low := HexValue(t[2]) * 16 + HexValue(t[3]), HexValue(t[4]) * 16 + HexValue(t[5]);
      Some(Read(high * 256 + low, t[6..]))
    else None
  }

  /** A string up to its closing quote. */
  function ReadString(t: Text): (r: Option<Read<Text>>)
    ensures r.Some? ==> |r.value.rest| < |t|
    decreases |t|
  {
    if t == [] then None
    else if t[0] == QUOTE then Some(Read([], t[1..]))
    else
      match ReadUnit(t)
      case None => None
      case Some(first) =>
        match ReadString(first.rest)
        case None => None
        case Some(more) => Some(Read([first.value] + more.value, more.rest))
  }

  lemma ReadUnitEscape(c: unit, rest: Text)
    ensures Escape(c)[0] != QUOTE && ReadUnit(Escape(c) + rest) == Some(Read(c, rest))
  {
    var t := Escape(c) + rest;
    assert t[|Escape(c)|..] == rest;
    if c < 32 && |Escape(c)| == 6 {
      assert t[2] == 48 && t[3] == 48 && t[4] == Hex(c / 16) && t[5] == Hex(c % 16);
    } else if |Escape(c)| == 2 {
      assert t[1] == Escape(c)[1];
    }
  }

  /** No other spelling of a character is shorter, and its hexadecimal digits are lower case. */
  lemma EscapeIsShortest(c: unit, t: Text)
    requires t != [] && t[0] != QUOTE && ReadUnit(t) == Some(Read(c, []))
    ensures |Escape(c)| <= |t|
    ensures forall i :: 2 <= i < |Escape(c)| ==> HexValue(Escape(c)[i]) >= 0 && !(65 <= Escape(c)[i] <= 70)
  {
    if t[0] != BACKSLASH {
      assert t == [c] + t[1..] && t[1..] == [];
    } else if |t| >= 2 && Short(t[1]).Some? {
      assert t[2..] == [] && |t| == 2;
    } else {
      assert t[6..] == [] && |t| == 6;
    }
  }

  lemma {:induction false} ReadStringEscaped(s: Text, rest: Text)
    ensures ReadString(Escaped(s) + [QUOTE] + rest) == Some(Read(s, rest))
  {
    var t := Escaped(s) + [QUOTE] + rest;
    if s == [] {
      assert t == [QUOTE] + rest;
    } else {
      var more := Escaped(s[1..]) + [QUOTE] + rest;
      assert t == Escape(s[0]) + more;
      ReadUnitEscape(s[0], more);
      ReadStringEscaped(s[1..], rest);
      assert s == [s[0]] + s[1..];
    }
  }

  // ---- JSON.parse ----

  predicate Space(u: unit) {
    u == 32 || u == 9 || u == 10 || u == 13
  }

  function SkipSpace(t: Text): (r: Text)
    ensures |r| <= |t|
    ensures t != [] && !Space(t[0]) ==> r == t
  {
    if t != [] && Space(t[0]) then SkipSpace(t[1..]) else t
  }

  function NumberLength(t: Text): (n: nat)
    ensures n <= |t|
  {
    if t != [] && NumberUnit(t[0]) then 1 + NumberLength(t[1..]) else 0
  }

  /** Sets a key, in its old place when the object has it already. */
  function Put(ms: seq<Member>, key: Text, value: Value): (r: seq<Member>)
    requires DistinctKeys(ms)
    ensures DistinctKeys(r)
    ensures forall i :: 0 <= i < |r| ==> r[i].value == value || exists j :: 0 <= j < |ms| && ms[j].value == r[i].value
    ensures (forall m :: m in ms ==> m.key != key) ==> r == ms + [Member(key, value)]
    ensures forall m :: m in r ==> m.key == key || exists n :: n in ms && n.key == m.key
  {
    if ms == [] then [Member(key, value)]
    else if ms[0].key == key then [Member(key, value)] + ms[1..]
    else [ms[0]] + Put(ms[1..], key, value)
  }

  lemma PutParsed(ms: seq<Member>, key: Text, value: Value)
    requires Parsed(Obj(ms)) && Parsed(value)
    ensures Parsed(Obj(Put(ms, key, value)))
  {
  }

  function ParseNumber(codec: Numbers, t: Text): (r: Option<Read<Value>>)
    ensures r.Some? ==> |r.value.rest| < |t| && Parsed(r.value.value)
  {
    var n := NumberLength(t);
    if n == 0 then None
    else
      match codec.read(t[..n])
      case None => None
      case Some(number) => Some(Read(Num(number), t[n..]))
  }

  function ParseValue(codec: Numbers, text: Text): (r: Option<Read<Value>>)
    ensures r.Some? ==> |r.value.rest| < |text| && Parsed(r.value.value)
    decreases |text|, 1
  {
    var t := SkipSpace(text);
    if t == [] then None
    else if t[0] == QUOTE then
      match ReadString(t[1..])
      case None => None
      case Some(s) => Some(Read(Str(s.value), s.rest))
    else if t[0] == OPEN_LIST then
      var after := SkipSpace(t[1..]);
      if after != [] && after[0] == CLOSE_LIST then Some(Read(Arr([]), after[1..]))
      else ParseItems(codec, [], t[1..])
    else if t[0] == OPEN_OBJECT then
      var after := SkipSpace(t[1..]);
      if after != [] && after[0] == CLOSE_OBJECT then Some(Read(Obj([]), after[1..]))
      else ParseMembers(codec, [], t[1..])
    else if TRUE_TEXT <= t then Some(Read(Bool(true), t[4..]))
    else if FALSE_TEXT <= t then Some(Read(Bool(false), t[5..]))
    else if NULL_TEXT <= t then Some(Read(Null, t[4..]))
    else ParseNumber(codec, t)
  }

  function ParseItems(codec: Numbers, done: seq<Value>, t: Text): (r: Option<Read<Value>>)
    requires forall i :: 0 <= i < |done| ==> Parsed(done[i])
    ensures r.Some? ==> |r.value.rest| < |t| && Parsed(r.value.value)
    decreases |t|, 2
  {
    match ParseValue(codec, t)
    case None => None
    case Some(item) =>
      var after, items := SkipSpace(item.rest), done + [item.value];
      assert forall i :: 0 <= i < |items| ==> Parsed(items[i]);
      if after == [] then None
      else if after[0] == COMMA then ParseItems(codec, items, after[1..])
      else if after[0] == CLOSE_LIST then Some(Read(Arr(items), after[1..]))
      else None
  }

  function ParseMembers(codec: Numbers, done: seq<Member>, text: Text): (r: Option<Read<Value>>)
    requires Parsed(Obj(done))
    ensures r.Some? ==> |r.value.rest| < |text| && Parsed(r.value.value)
    decreases |text|, 2
  {
    var t := SkipSpace(text);
    if t == [] || t[0] != QUOTE then None
    else
      match ReadString(t[1..])
      case None => None
      case Some(key) =>
        var colon := SkipSpace(key.rest);
        if colon == [] || colon[0] != COLON then None
        else
          match ParseValue(codec, colon[1..])
          case None => None
          case Some(item) =>
            var after := SkipSpace(item.rest);
            PutParsed(done, key.value, item.value);
            var members := Put(done, key.value, item.value);
            if after == [] then None
            else if after[0] == COMMA then ParseMembers(codec, members, after[1..])
            else if after[0] == CLOSE_OBJECT then Some(Read(Obj(members), after[1..]))
            else None
  }

  /** The one value the whole text spells. */
  function JsonParse(codec: Numbers, text: Text): (r: Option<Value>)
    ensures r.Some? ==> Parsed(r.value)
  {
    match ParseValue(codec, text)
    case None => None
    case Some(read) => if SkipSpace(read.rest) == [] then Some(read.value) else None
  }
}

/**
 * Canonical JSON (RFC 8785, sections 3.2.2 and 3.2.3) as `canonicalJson.ts` writes it, against
 * the parser of `JsonText`: nothing is lost, nothing depends on member order, and what was parsed
 * from canonical text is written back the same.
 */
module CanonicalJson {
  import opened Wrappers
  import opened JsonText

  // ---- Strings that can be written ----

  predicate High(u: unit) {
    0xd800 <= u <= 0xdbff
  }

  predicate Low(u: unit) {
    0xdc00 <= u <= 0xdfff
  }

  predicate Paired(s: Text, i: nat)
    requires i < |s|
  {
    && (High(s[i]) ==> i + 1 < |s| && Low(s[i + 1]))
    && (Low(s[i]) ==> i > 0 && High(s[i - 1]))
  }

  /** No lone surrogate. */
  predicate WellFormed(s: Text) {
    forall i :: 0 <= i < |s| ==> Paired(s, i)
  }

  method AssertWellFormed(s: Text) returns (ok: bool)
    ensures ok == WellFormed(s)
  {
    var i := 0;
    while i < |s|
      invariant 0 <= i <= |s| && (i > 0 ==> !High(s[i - 1]))
      invariant forall k :: 0 <= k < i ==> Paired(s, k)
    {
      assert Paired(s, i) ==> (High(s[i]) ==> i + 1 < |s| && Low(s[i + 1])) && !Low(s[i]);
      if High(s[i]) {
        if i + 1 < |s| && Low(s[i + 1]) {
          i := i + 2;
        } else {
          return false;
        }
      } else if Low(s[i]) {
        return false;
      } else {
        i := i + 1;
      }
    }
    ok := true;
  }

  // ---- Key order ----

  /** Code unit order, which is what a plain `sort()` compares. */
  predicate Before(a: Text, b: Text) {
    if b == [] then false
    else if a == [] then true
    else a[0] < b[0] || (a[0] == b[0] && Before(a[1..], b[1..]))
  }

  /** The texts are the same up to a place where the first has ended or has the smaller unit. */
  predicate FirstIsLess(a: Text, b: Text, k: nat) {
    k <= |a| && k < |b| && a[..k] == b[..k] && (k == |a| || a[k] < b[k])
  }

  /** The first place that differs decides, and a text comes before its extensions. */
  lemma {:induction false} BeforeIff(a: Text, b: Text)
    ensures Before(a, b) <==> exists k :: FirstIsLess(a, b, k)
  {
    if a == [] || b == [] {
      assert b != [] ==> FirstIsLess(a, b, 0);
    } else {
      BeforeIff(a[1..], b[1..]);
      if k: nat :| FirstIsLess(a, b, k) && k > 0 {
        assert a[..k][0] == b[..k][0] && a[1..][..k - 1] == a[..k][1..] && b[1..][..k - 1] == b[..k][1..];
        assert FirstIsLess(a[1..], b[1..], k - 1);
      }
      if k: nat :| FirstIsLess(a[1..], b[1..], k) && a[0] == b[0] {
        assert a[..k + 1] == [a[0]] + a[1..][..k] && b[..k + 1] == [b[0]] + b[1..][..k];
        assert FirstIsLess(a, b, k + 1);
      }
      assert a[0] < b[0] ==> FirstIsLess(a, b, 0);
    }
  }

  lemma {:induction false} BeforeIsTotal(a: Text, b: Text)
    ensures Before(a, b) || Before(b, a) || a == b
    ensures !(Before(a, b) && Before(b, a)) && (a == b ==> !Before(a, b))
  {
    if a != [] && b != [] {
      BeforeIsTotal(a[1..], b[1..]);
      assert a == [a[0]] + a[1..] && b == [b[0]] + b[1..];
    }
  }

  lemma {:induction false} BeforeIsTransitive(a: Text, b: Text, c: Text)
    requires Before(a, b) && Before(b, c)
    ensures Before(a, c)
  {
    if a != [] && a[0] == b[0] && b[0] == c[0] {
      BeforeIsTransitive(a[1..], b[1..], c[1..]);
    }
  }

  predicate Ascending(keys: seq<Text>) {
    forall i, j :: 0 <= i < j < |keys| ==> Before(keys[i], keys[j])
  }

  function Insert(key: Text, keys: seq<Text>): (r: seq<Text>)
    ensures forall k :: k in r <==> k == key || k in keys
  {
    if keys == [] then [key]
    else if Before(key, keys[0]) then [key] + keys
    else [keys[0]] + Insert(key, keys[1..])
  }

  lemma {:induction false} InsertAscends(key: Text, keys: seq<Text>)
    requires Ascending(keys) && key !in keys
    ensures Ascending(Insert(key, keys))
  {
    if keys != [] {
      BeforeIsTotal(key, keys[0]);
      if Before(key, keys[0]) {
        forall j | 0 <= j < |keys|
          ensures Before(key, keys[j])
        {
          if j > 0 {
            BeforeIsTransitive(key, keys[0], keys[j]);
          }
        }
      } else {
        InsertAscends(key, keys[1..]);
        forall k | k in Insert(key, keys[1..])
          ensures Before(keys[0], k)
        {
        }
      }
    }
  }

  lemma HasFirst(keys: seq<Text>)
    ensures keys == [] || exists k :: k in keys
  {
    if keys != [] {
      assert keys[0] in keys;
    }
  }

  /** Two ascending lists of the same keys are the same list. */
  lemma {:induction false} AscendingIsUnique(a: seq<Text>, b: seq<Text>)
    requires Ascending(a) && Ascending(b) && forall k :: k in a <==> k in b
    ensures a == b
  {
    if a == [] {
      HasFirst(b);
    } else {
      assert a[0] in b && b[0] in a;
      var i :| 0 <= i < |b| && b[i] == a[0];
      var j :| 0 <= j < |a| && a[j] == b[0];
      BeforeIsTotal(a[0], b[0]);
      assert a[0] == b[0];
      forall k
        ensures k in a[1..] <==> k in b[1..]
      {
        BeforeIsTotal(k, k);
        assert k in a <==> k == a[0] || k in a[1..];
        assert k in b <==> k == b[0] || k in b[1..];
        assert a[0] !in a[1..] && b[0] !in b[1..] by {
          BeforeIsTotal(a[0], a[0]);
        }
      }
      AscendingIsUnique(a[1..], b[1..]);
      assert a == [a[0]] + a[1..] && b == [b[0]] + b[1..];
    }
  }

  // ---- Members ----

  predicate HasKey(ms: seq<Member>, key: Text) {
    exists i :: 0 <= i < |ms| && ms[i].key == key && ms[i].value != Undefined
  }

  /** The keys that are written: `undefined` members are skipped. */
  function SortedKeys(ms: seq<Member>): (r: seq<Text>)
    ensures forall k :: k in r <==> HasKey(ms, k)
  {
    if ms == [] then []
    else
      var rest := SortedKeys(ms[1..]);
      assert forall k :: HasKey(ms, k) <==> HasKey(ms[1..], k) || (ms[0].key == k && ms[0].value != Undefined) by {
        assert forall i :: 1 <= i < |ms| ==> ms[1..][i - 1] == ms[i];
      }
      if ms[0].value == Undefined then rest else Insert(ms[0].key, rest)
  }

  lemma {:induction false} SortedKeysAscend(ms: seq<Member>)
    requires DistinctKeys(ms)
    ensures Ascending(SortedKeys(ms))
  {
    if ms != [] {
      SortedKeysAscend(ms[1..]);
      if ms[0].value != Undefined {
        InsertAscends(ms[0].key, SortedKeys(ms[1..]));
      }
    }
  }

  /** `value[key]`: where the defined member with a key is. */
  function Find(ms: seq<Member>, key: Text): (i: nat)
    requires HasKey(ms, key)
    ensures i < |ms| && ms[i].key == key && ms[i].value != Undefined
  {
    if ms[0].key == key && ms[0].value != Undefined then 0 else 1 + Find(ms[1..], key)
  }

  function Get(ms: seq<Member>, key: Text): (v: Value)
    requires key in SortedKeys(ms)
    ensures exists i :: 0 <= i < |ms| && ms[i] == Member(key, v)
    ensures v != Undefined
  {
    ms[Find(ms, key)].value
  }

  // ---- canonicalJson ----

  /** The values `canonicalJson` does not throw on. `map` passes over a hole, so the check on an item never sees it. */
  predicate Acceptable(v: Value) {
    match v
    case Null => true
    case Bool(_) => true
    case Num(n) => n != NotFinite
    case Str(s) => WellFormed(s)
    case Arr(items) => forall i :: 0 <= i < |items| ==> items[i] == Hole || Acceptable(items[i])
    case Obj(ms) => forall i :: 0 <= i < |ms| ==>
      ms[i].value == Undefined || (WellFormed(ms[i].key) && Acceptable(ms[i].value))
    case Undefined => false
    case Exotic => false
    case Hole => false
  }

  function Print(codec: Numbers, v: Value): Text
    requires Acceptable(v)
    decreases v
  {
    match v
    case Null => NULL_TEXT
    case Bool(flag) => if flag then TRUE_TEXT else FALSE_TEXT
    case Num(n) => codec.write(if n == NegativeZero then 0 else n.bits)
    case Str(s) => Quoted(s)
    case Arr(items) => [OPEN_LIST] + PrintItems(codec, v, 0) + [CLOSE_LIST]
    case Obj(ms) => [OPEN_OBJECT] + PrintMembers(codec, v, SortedKeys(ms)) + [CLOSE_OBJECT]
  }

  function PrintItems(codec: Numbers, v: Value, i: nat): Text
    requires v.Arr? && Acceptable(v) && i <= |v.items|
    decreases v, |v.items| - i + 1
  {
    if i == |v.items| then []
    else
      PrintItem(codec, v, i) + (if i + 1 == |v.items| then [] else [COMMA] + PrintItems(codec, v, i + 1))
  }

  /** `join` writes nothing for a hole. */
  function PrintItem(codec: Numbers, v: Value, i: nat): Text
    requires v.Arr? && Acceptable(v) && i < |v.items|
    decreases v, 0
  {
    if v.items[i] == Hole then [] else Print(codec, v.items[i])
  }

  function PrintMembers(codec: Numbers, v: Value, keys: seq<Text>): Text
    requires v.Obj? && Acceptable(v) && forall k :: k in keys ==> k in SortedKeys(v.members)
    decreases v, |keys|
  {
    if keys == [] then []
    else
      Quoted(keys[0]) + [COLON] + Print(codec, Get(v.members, keys[0]))
      + (if |keys| == 1 then [] else [COMMA] + PrintMembers(codec, v, keys[1..]))
  }

  function CanonicalJson(codec: Numbers, v: Value): Option<Text> {
    if Acceptable(v) then Some(Print(codec, v)) else None
  }

  /** A value is, or holds at some depth, another one that is written with it. */
  predicate Holds(v: Value, x: Value)
    decreases v
  {
    || v == x
    || (v.Arr? && exists i :: 0 <= i < |v.items| && v.items[i] != Hole && Holds(v.items[i], x))
    || (v.Obj? && exists i :: 0 <= i < |v.members| && v.members[i].value != Undefined && Holds(v.members[i].value, x))
  }

  /** What `canonicalJson` throws on wherever it meets it. */
  predicate Refused(x: Value) {
    || x.Undefined? || x.Exotic? || x.Hole? || x == Num(NotFinite)
    || (x.Str? && !WellFormed(x.text))
    || (x.Obj? && exists i :: 0 <= i < |x.members| && x.members[i].value != Undefined && !WellFormed(x.members[i].key))
  }

  /** It throws exactly when the value holds something that would be dropped, changed or not be text. */
  lemma {:induction false} ThrowsIff(codec: Numbers, v: Value)
    ensures CanonicalJson(codec, v).None? <==> exists x :: Holds(v, x) && Refused(x)
    decreases v
  {
    if v.Arr? {
      forall i | 0 <= i < |v.items| && v.items[i] != Hole
        ensures Acceptable(v.items[i]) <==> !exists x :: Holds(v.items[i], x) && Refused(x)
      {
        ThrowsIff(codec, v.items[i]);
      }
    } else if v.Obj? {
      forall i | 0 <= i < |v.members| && v.members[i].value != Undefined
        ensures Acceptable(v.members[i].value) <==> !exists x :: Holds(v.members[i].value, x) && Refused(x)
      {
        ThrowsIff(codec, v.members[i].value);
      }
    }
    assert Holds(v, v);
  }

  // ---- What a value means ----

  /** The value without its `undefined` members and minus zeros, its members in key order. */
  function Norm(v: Value): Value {
    match v
    case Num(n) => if n == NegativeZero then Num(Finite(0)) else v
    case Arr(items) => Arr(seq(|items|, i requires 0 <= i < |items| => Norm(items[i])))
    case Obj(ms) =>
      var keys := SortedKeys(ms);
      Obj(seq(|keys|, i requires 0 <= i < |keys| => Member(keys[i], Norm(Get(ms, keys[i])))))
    case _ => v
  }

  /** Equal up to the order of members, members that are `undefined`, and the sign of zero. */
  predicate SameMeaning(v: Value, w: Value)
    decreases v
  {
    match v
    case Num(n) => w.Num? && (n == w.number || (IsZero(n) && IsZero(w.number)))
    case Arr(items) =>
      w.Arr? && |items| == |w.items| && forall i :: 0 <= i < |items| ==> SameMeaning(items[i], w.items[i])
    case Obj(ms) =>
      && w.Obj?
      && (forall i :: 0 <= i < |ms| && ms[i].value != Undefined ==>
        && HasKey(w.members, ms[i].key)
        && SameMeaning(ms[i].value, w.members[Find(w.members, ms[i].key)].value))
      && (forall j :: 0 <= j < |w.members| && w.members[j].value != Undefined ==> HasKey(ms, w.members[j].key))
    case _ => v == w
  }

  predicate IsZero(n: Number) {
    n == NegativeZero || n == Finite(0)
  }

  // ---- The parser undoes the printer ----

  /** Text a number cannot run into. */
  predicate Delimited(rest: Text) {
    rest == [] || !NumberUnit(rest[0])
  }

  lemma {:induction false} NumberLengthOf(w: Text, rest: Text)
    requires Delimited(rest) && forall i :: 0 <= i < |w| ==> NumberUnit(w[i])
    ensures NumberLength(w + rest) == |w|
  {
    if w == [] {
      assert w + rest == rest;
    } else {
      NumberLengthOf(w[1..], rest);
      assert (w + rest)[1..] == w[1..] + rest;
    }
  }

  lemma ParseWrittenNumber(codec: Numbers, bits: nat, rest: Text)
    requires Sound(codec) && Delimited(rest)
    ensures ParseValue(codec, codec.write(bits) + rest) == Some(Read(Num(Finite(bits)), rest))
  {
    var w := codec.write(bits);
    var t := w + rest;
    NumberLengthOf(w, rest);
    assert NumberUnit(t[0]) && t[..|w|] == w && t[|w|..] == rest;
  }

  lemma ParseWord(codec: Numbers, rest: Text)
    ensures ParseValue(codec, TRUE_TEXT + rest) == Some(Read(Bool(true), rest))
    ensures ParseValue(codec, FALSE_TEXT + rest) == Some(Read(Bool(false), rest))
    ensures ParseValue(codec, NULL_TEXT + rest) == Some(Read(Null, rest))
  {
    assert (TRUE_TEXT + rest)[4..] == rest && (FALSE_TEXT + rest)[5..] == rest && (NULL_TEXT + rest)[4..] == rest;
    assert (TRUE_TEXT + rest)[0] == 116 && (FALSE_TEXT + rest)[0] == 102 && (NULL_TEXT + rest)[0] == 110;
  }

  lemma ParseQuoted(codec: Numbers, s: Text, rest: Text)
    ensures ParseValue(codec, Quoted(s) + rest) == Some(Read(Str(s), rest))
    ensures ReadString((Quoted(s) + rest)[1..]) == Some(Read(s, rest))
  {
    var t := Quoted(s) + rest;
    assert t[1..] == Escaped(s) + [QUOTE] + rest;
    ReadStringEscaped(s, rest);
  }

  /** The first character of printed text: never white space, never a closing bracket. */
  lemma PrintStarts(codec: Numbers, v: Value)
    requires Sound(codec) && Acceptable(v)
    ensures var t := Print(codec, v);
      t != [] && !Space(t[0]) && t[0] != CLOSE_LIST && t[0] != CLOSE_OBJECT
  {
    if v.Num? {
      var w := codec.write(if v.number == NegativeZero then 0 else v.number.bits);
      assert NumberUnit(w[0]);
    }
  }

  lemma ListOpens(codec: Numbers, body: Text)
    requires body != [] && !Space(body[0])
    ensures ParseValue(codec, [OPEN_LIST] + body)
      == if body[0] == CLOSE_LIST then Some(Read(Arr([]), body[1..])) else ParseItems(codec, [], body)
  {
    assert ([OPEN_LIST] + body)[1..] == body;
  }

  lemma ObjectOpens(codec: Numbers, body: Text)
    requires body != [] && !Space(body[0])
    ensures ParseValue(codec, [OPEN_OBJECT] + body)
      == if body[0] == CLOSE_OBJECT then Some(Read(Obj([]), body[1..])) else ParseMembers(codec, [], body)
  {
    assert ([OPEN_OBJECT] + body)[1..] == body;
  }

  lemma ItemsStep(codec: Numbers, done: seq<Value>, t: Text, x: Value, after: Text)
    requires forall i :: 0 <= i < |done| ==> Parsed(done[i])
    requires ParseValue(codec, t) == Some(Read(x, after))
    ensures after != [] && after[0] == COMMA ==> ParseItems(codec, done, t) == ParseItems(codec, done + [x], after[1..])
    ensures after != [] && after[0] == CLOSE_LIST ==>
      ParseItems(codec, done, t) == Some(Read(Arr(done + [x]), after[1..]))
  {
  }

  /** One member, whatever white space follows its value. */
  lemma MembersNext(codec: Numbers, done: seq<Member>, key: Text, t: Text, x: Value, after: Text)
    requires Parsed(Obj(done)) && forall m :: m in done ==> m.key != key
    requires ParseValue(codec, t) == Some(Read(x, after))
    ensures Parsed(Obj(done + [Member(key, x)]))
    ensures var next := SkipSpace(after);
      && (next != [] && next[0] == COMMA ==>
        ParseMembers(codec, done, Quoted(key) + ([COLON] + t))
          == ParseMembers(codec, done + [Member(key, x)], next[1..]))
      && (next != [] && next[0] == CLOSE_OBJECT ==>
        ParseMembers(codec, done, Quoted(key) + ([COLON] + t)) == Some(Read(Obj(done + [Member(key, x)]), next[1..])))
  {
    var text := Quoted(key) + ([COLON] + t);
    ParseQuoted(codec, key, [COLON] + t);
    assert ([COLON] + t)[1..] == t;
    PutNew(done, key, x);
    assert text[0] == QUOTE && SkipSpace(text) == text;
    assert ReadString(text[1..]) == Some(Read(key, [COLON] + t));
    assert SkipSpace([COLON] + t) == [COLON] + t;
  }

  lemma MembersStep(codec: Numbers, done: seq<Member>, key: Text, t: Text, x: Value, after: Text)
    requires Parsed(Obj(done)) && forall m :: m in done ==> m.key != key
    requires ParseValue(codec, t) == Some(Read(x, after))
    ensures Parsed(Obj(done + [Member(key, x)]))
    ensures after != [] && after[0] == COMMA ==>
      ParseMembers(codec, done, Quoted(key) + ([COLON] + t)) == ParseMembers(codec, done + [Member(key, x)], after[1..])
    ensures after != [] && after[0] == CLOSE_OBJECT ==>
      ParseMembers(codec, done, Quoted(key) + ([COLON] + t)) == Some(Read(Obj(done + [Member(key, x)]), after[1..]))
  {
    MembersNext(codec, done, key, t, x, after);
    assert after != [] && (after[0] == COMMA || after[0] == CLOSE_OBJECT) ==> SkipSpace(after) == after;
  }

  lemma PutNew(done: seq<Member>, key: Text, x: Value)
    requires Parsed(Obj(done)) && Parsed(x) && forall m :: m in done ==> m.key != key
    ensures Put(done, key, x) == done + [Member(key, x)] && Parsed(Obj(done + [Member(key, x)]))
  {
  }

  /** Whatever follows it, printed text is read back as the value it stands for. */
  lemma {:induction false} ParsePrint(codec: Numbers, v: Value, rest: Text)
    requires Sound(codec) && Parsed(v) && Acceptable(v) && Delimited(rest)
    ensures ParseValue(codec, Print(codec, v) + rest) == Some(Read(Norm(v), rest))
    decreases v
  {
    match v
    case Null => ParseWord(codec, rest);
    case Bool(_) => ParseWord(codec, rest);
    case Num(n) => ParseWrittenNumber(codec, if n == NegativeZero then 0 else n.bits, rest);
    case Str(s) => ParseQuoted(codec, s, rest);
    case Arr(_) => ParsePrintList(codec, v, rest);
    case Obj(_) => ParsePrintObject(codec, v, rest);
  }

  lemma {:induction false} ParsePrintList(codec: Numbers, v: Value, rest: Text)
    requires Sound(codec) && v.Arr? && Parsed(v) && Acceptable(v)
    ensures ParseValue(codec, Print(codec, v) + rest) == Some(Read(Norm(v), rest))
    decreases v, |v.items| + 1
  {
    var body := PrintItems(codec, v, 0) + ([CLOSE_LIST] + rest);
    assert Print(codec, v) + rest == [OPEN_LIST] + body;
    if v.items == [] {
      assert body == [CLOSE_LIST] + rest && body[1..] == rest;
      assert Norm(v).items == [];
    } else {
      assert Dense(v.items[0]);
      PrintStarts(codec, v.items[0]);
      PrintItemsAt(codec, v, 0, [CLOSE_LIST] + rest);
      assert body[0] == Print(codec, v.items[0])[0];
      ParsePrintItems(codec, v, 0, [], rest);
    }
    assert body != [] && !Space(body[0]);
    ListOpens(codec, body);
  }

  lemma NormItem(v: Value, i: nat)
    requires v.Arr? && i < |v.items|
    ensures |Norm(v).items| == |v.items| && Norm(v).items[i] == Norm(v.items[i])
    ensures Norm(v).items[..i] + [Norm(v.items[i])] == Norm(v).items[..i + 1]
  {
  }

  lemma {:induction false} ParsePrintItems(codec: Numbers, v: Value, i: nat, done: seq<Value>, rest: Text)
    requires Sound(codec) && v.Arr? && Parsed(v) && Acceptable(v) && i < |v.items|
    requires done == Norm(v).items[..i] && forall k :: 0 <= k < |done| ==> Parsed(done[k])
    ensures ParseItems(codec, done, PrintItems(codec, v, i) + ([CLOSE_LIST] + rest)) == Some(Read(Norm(v), rest))
    decreases v, |v.items| - i
  {
    assert Dense(v.items[i]) && Keyed(v.items[i]);
    var end, item, x := [CLOSE_LIST] + rest, Print(codec, v.items[i]), Norm(v.items[i]);
    PrintItemsAt(codec, v, i, end);
    NormItem(v, i);
    if i + 1 == |v.items| {
      ParsePrint(codec, v.items[i], end);
      ItemsStep(codec, done, item + end, x, end);
      assert end[1..] == rest && done + [x] == Norm(v).items;
    } else {
      var more := PrintItems(codec, v, i + 1) + end;
      var after := [COMMA] + more;
      ParsePrint(codec, v.items[i], after);
      ItemsStep(codec, done, item + after, x, after);
      assert after[1..] == more;
      ParsePrintItems(codec, v, i + 1, done + [x], rest);
    }
  }

  lemma PrintItemsAt(codec: Numbers, v: Value, i: nat, end: Text)
    requires v.Arr? && Acceptable(v) && i < |v.items| && v.items[i] != Hole
    ensures PrintItems(codec, v, i) + end == Print(codec, v.items[i])
      + (if i + 1 == |v.items| then end else [COMMA] + (PrintItems(codec, v, i + 1) + end))
  {
  }

  lemma {:induction false} ParsePrintObject(codec: Numbers, v: Value, rest: Text)
    requires Sound(codec) && v.Obj? && Parsed(v) && Acceptable(v)
    ensures ParseValue(codec, Print(codec, v) + rest) == Some(Read(Norm(v), rest))
    decreases v, |SortedKeys(v.members)| + 1
  {
    var keys := SortedKeys(v.members);
    var body := PrintMembers(codec, v, keys) + ([CLOSE_OBJECT] + rest);
    assert Print(codec, v) + rest == [OPEN_OBJECT] + body;
    if keys == [] {
      assert body == [CLOSE_OBJECT] + rest && body[1..] == rest;
      assert Norm(v).members == [];
    } else {
      SortedKeysAscend(v.members);
      assert keys[0..] == keys && Norm(v).members[..0] == [];
      ParsePrintMembers(codec, v, 0, rest);
      assert body[0] == QUOTE;
    }
    ObjectOpens(codec, body);
  }

  lemma {:induction false} ParsePrintMembers(codec: Numbers, v: Value, i: nat, rest: Text)
    requires Sound(codec) && v.Obj? && Parsed(v) && Acceptable(v) && i < |SortedKeys(v.members)|
    requires Ascending(SortedKeys(v.members)) && Parsed(Obj(Norm(v).members[..i]))
    ensures ParseMembers(codec, Norm(v).members[..i],
      PrintMembers(codec, v, SortedKeys(v.members)[i..]) + ([CLOSE_OBJECT] + rest)) == Some(Read(Norm(v), rest))
    decreases v, |SortedKeys(v.members)| - i
  {
    var keys, n, end := SortedKeys(v.members), Norm(v).members, [CLOSE_OBJECT] + rest;
    var value := Get(v.members, keys[i]);
    NewKey(n, keys, i);
    if i + 1 == |keys| {
      PrintMembersAt(codec, v, i, end);
      ParsePrint(codec, value, end);
      MembersStep(codec, n[..i], keys[i], Print(codec, value) + end, n[i].value, end);
      assert end[1..] == rest && n[..i + 1] == n;
    } else {
      var more := PrintMembers(codec, v, keys[i + 1..]) + end;
      var after := [COMMA] + more;
      PrintMembersAt(codec, v, i, end);
      ParsePrint(codec, value, after);
      MembersStep(codec, n[..i], keys[i], Print(codec, value) + after, n[i].value, after);
      assert after[1..] == more;
      ParsePrintMembers(codec, v, i + 1, rest);
    }
  }

  lemma PrintMembersAt(codec: Numbers, v: Value, i: nat, end: Text)
    requires v.Obj? && Acceptable(v) && i < |SortedKeys(v.members)|
    ensures var keys := SortedKeys(v.members);
      var after := if i + 1 == |keys| then end else [COMMA] + (PrintMembers(codec, v, keys[i + 1..]) + end);
      PrintMembers(codec, v, keys[i..]) + end
        == Quoted(keys[i]) + ([COLON] + (Print(codec, Get(v.members, keys[i])) + after))
  {
    var keys := SortedKeys(v.members);
    assert keys[i..][1..] == keys[i + 1..];
  }

  lemma NewKey(n: seq<Member>, keys: seq<Text>, i: nat)
    requires i < |keys| == |n| && Ascending(keys) && forall k :: 0 <= k < |n| ==> n[k].key == keys[k]
    ensures forall m :: m in n[..i] ==> m.key != keys[i]
    ensures n[..i] + [Member(keys[i], n[i].value)] == n[..i + 1]
  {
    forall k | 0 <= k < i
      ensures keys[k] != keys[i]
    {
      BeforeIsTotal(keys[k], keys[i]);
    }
  }

  // ---- Main results ----

  /**
   * `JSON.parse` returns what was canonicalized, without its undefined members and minus zeros, exactly
   * when no array in it has a hole.
   */
  lemma RoundTrip(codec: Numbers, v: Value)
    requires Sound(codec) && Keyed(v) && CanonicalJson(codec, v).Some?
    ensures JsonParse(codec, CanonicalJson(codec, v).value) == Some(Norm(v)) <==> Dense(v)
  {
    if Dense(v) {
      ParsePrint(codec, v, []);
      assert Print(codec, v) + [] == Print(codec, v);
    } else {
      NormIsDense(v);
    }
  }

  lemma {:induction false} NormIsDense(v: Value)
    requires Keyed(v)
    ensures Dense(Norm(v)) <==> Dense(v)
    decreases v
  {
    if v.Arr? {
      forall i | 0 <= i < |v.items|
        ensures Dense(Norm(v).items[i]) <==> Dense(v.items[i])
      {
        NormIsDense(v.items[i]);
      }
    } else if v.Obj? {
      forall i | 0 <= i < |v.members| && v.members[i].value != Undefined
        ensures exists k :: 0 <= k < |Norm(v).members|
                  && (Dense(Norm(v).members[k].value) <==> Dense(v.members[i].value))
      {
        NormMember(v.members, i);
        var k :| 0 <= k < |SortedKeys(v.members)| && SortedKeys(v.members)[k] == v.members[i].key;
        NormIsDense(v.members[i].value);
        assert Norm(v).members[k].value == Norm(v.members[i].value);
      }
      forall k | 0 <= k < |Norm(v).members|
        ensures exists i :: 0 <= i < |v.members| && (Dense(Norm(v).members[k].value) <==> Dense(v.members[i].value))
      {
        var i := Find(v.members, SortedKeys(v.members)[k]);
        NormIsDense(v.members[i].value);
      }
    }
  }

  /** A hole is accepted and lost: the array that has only a hole is written as the empty array. */
  lemma HoleIsLost(codec: Numbers)
    ensures CanonicalJson(codec, Arr([Hole])).Some?
    ensures CanonicalJson(codec, Arr([Hole])) == CanonicalJson(codec, Arr([]))
    ensures !SameMeaning(Arr([Hole]), Arr([]))
  {
    assert PrintItems(codec, Arr([Hole]), 0) == [];
  }

  lemma NormMember(ms: seq<Member>, i: nat)
    requires DistinctKeys(ms) && i < |ms| && ms[i].value != Undefined
    ensures ms[i].key in SortedKeys(ms) && Get(ms, ms[i].key) == ms[i].value
  {
  }

  /** `Norm` is a normal form: it is equal on two values exactly when they mean the same. */
  lemma {:induction false} NormDecidesMeaning(v: Value, w: Value)
    requires Keyed(v) && Keyed(w)
    ensures SameMeaning(v, w) <==> Norm(v) == Norm(w)
    decreases v
  {
    if v.Arr? && w.Arr? {
      assert |Norm(v).items| == |v.items| && |Norm(w).items| == |w.items|;
      if |v.items| == |w.items| {
        ItemsDecideMeaning(v, w);
      }
    } else if v.Obj? && w.Obj? {
      if SameMeaning(v, w) {
        MeaningGivesNorm(v, w);
      }
      if Norm(v) == Norm(w) {
        NormGivesMeaning(v, w);
      }
    }
  }

  lemma {:induction false} ItemsDecideMeaning(v: Value, w: Value)
    requires v.Arr? && w.Arr? && Keyed(v) && Keyed(w) && |v.items| == |w.items|
    ensures SameMeaning(v, w) <==> Norm(v) == Norm(w)
    decreases v, 0
  {
    forall i | 0 <= i < |v.items|
      ensures SameMeaning(v.items[i], w.items[i]) <==> Norm(v).items[i] == Norm(w).items[i]
    {
      NormDecidesMeaning(v.items[i], w.items[i]);
    }
    if Norm(v) == Norm(w) {
      assert forall i :: 0 <= i < |v.items| ==> Norm(v).items[i] == Norm(w).items[i];
    }
  }

  lemma {:induction false} MeaningGivesNorm(v: Value, w: Value)
    requires v.Obj? && w.Obj? && Keyed(v) && Keyed(w) && SameMeaning(v, w)
    ensures Norm(v) == Norm(w)
    decreases v, 0
  {
    var a, b := SortedKeys(v.members), SortedKeys(w.members);
    SortedKeysAscend(v.members);
    SortedKeysAscend(w.members);
    assert forall k :: HasKey(v.members, k) <==> HasKey(w.members, k);
    AscendingIsUnique(a, b);
    forall i | 0 <= i < |a|
      ensures Norm(v).members[i] == Norm(w).members[i]
    {
      var m, n := Find(v.members, a[i]), Find(w.members, a[i]);
      NormDecidesMeaning(v.members[m].value, w.members[n].value);
    }
  }

  lemma {:induction false} NormGivesMeaning(v: Value, w: Value)
    requires v.Obj? && w.Obj? && Keyed(v) && Keyed(w) && Norm(v) == Norm(w)
    ensures SameMeaning(v, w)
    decreases v, 0
  {
    var a, b := SortedKeys(v.members), SortedKeys(w.members);
    forall i | 0 <= i < |a|
      ensures a[i] == b[i]
    {
      assert Norm(v).members[i].key == Norm(w).members[i].key;
    }
    assert |a| == |Norm(v).members| == |b|;
    assert a == b;
    forall i | 0 <= i < |v.members| && v.members[i].value != Undefined
      ensures HasKey(w.members, v.members[i].key)
      ensures SameMeaning(v.members[i].value, w.members[Find(w.members, v.members[i].key)].value)
    {
      NormMember(v.members, i);
      var k :| 0 <= k < |a| && a[k] == v.members[i].key;
      assert Norm(v).members[k].value == Norm(w).members[k].value;
      NormDecidesMeaning(v.members[i].value, w.members[Find(w.members, b[k])].value);
    }
    forall j | 0 <= j < |w.members| && w.members[j].value != Undefined
      ensures HasKey(v.members, w.members[j].key)
    {
      assert w.members[j].key in a;
    }
  }

  /** Two values without holes have the same canonical text exactly when they mean the same. */
  lemma SameTextSameMeaning(codec: Numbers, v: Value, w: Value)
    requires Sound(codec) && Parsed(v) && Parsed(w)
    requires CanonicalJson(codec, v).Some? && CanonicalJson(codec, w).Some?
    ensures CanonicalJson(codec, v) == CanonicalJson(codec, w) <==> SameMeaning(v, w)
  {
    NormDecidesMeaning(v, w);
    RoundTrip(codec, v);
    RoundTrip(codec, w);
    if Norm(v) == Norm(w) {
      PrintNorm(codec, v);
      PrintNorm(codec, w);
    }
  }

  /** A normal form is printed as the value it came from. */
  lemma {:induction false} PrintNorm(codec: Numbers, v: Value)
    requires Keyed(v) && Acceptable(v)
    ensures Keyed(Norm(v)) && Acceptable(Norm(v)) && Print(codec, Norm(v)) == Print(codec, v)
    decreases v
  {
    if v.Arr? {
      forall i | 0 <= i < |v.items|
        ensures Keyed(Norm(v).items[i]) && (if v.items[i] == Hole then Norm(v).items[i] == Hole
          else Acceptable(Norm(v).items[i]) && Print(codec, Norm(v).items[i]) == Print(codec, v.items[i]))
      {
        if v.items[i] != Hole {
          PrintNorm(codec, v.items[i]);
        }
      }
      PrintNormItems(codec, v, Norm(v), 0);
    } else if v.Obj? {
      PrintNormObject(codec, v);
    }
  }

  lemma {:induction false} PrintNormItems(codec: Numbers, v: Value, w: Value, i: nat)
    requires v.Arr? && w.Arr? && Acceptable(v) && Acceptable(w) && i <= |v.items| == |w.items|
    requires forall k :: 0 <= k < |v.items| ==> PrintItem(codec, w, k) == PrintItem(codec, v, k)
    ensures PrintItems(codec, w, i) == PrintItems(codec, v, i)
    decreases |v.items| - i
  {
    if i < |v.items| {
      PrintNormItems(codec, v, w, i + 1);
    }
  }

  lemma {:induction false} PrintNormObject(codec: Numbers, v: Value)
    requires v.Obj? && Keyed(v) && Acceptable(v)
    ensures Keyed(Norm(v)) && Acceptable(Norm(v)) && Print(codec, Norm(v)) == Print(codec, v)
    decreases v, 0
  {
    var keys, n := SortedKeys(v.members), Norm(v).members;
    SortedKeysAscend(v.members);
    forall i | 0 <= i < |keys|
      ensures WellFormed(n[i].key) && Keyed(n[i].value) && Acceptable(n[i].value) && n[i].value != Undefined
      ensures n[i].key == keys[i] && Print(codec, n[i].value) == Print(codec, Get(v.members, keys[i]))
    {
      PrintNorm(codec, Get(v.members, keys[i]));
    }
    NormDistinct(n, keys);
    NormKeys(n, keys);
    assert Acceptable(Norm(v));
    forall i | 0 <= i < |keys|
      ensures Get(n, keys[i]) == n[i].value
    {
      NormMember(n, i);
    }
    PrintNormMembers(codec, v, Norm(v), 0);
    assert keys[0..] == keys;
  }

  lemma NormDistinct(n: seq<Member>, keys: seq<Text>)
    requires |n| == |keys| && Ascending(keys) && forall i :: 0 <= i < |n| ==> n[i].key == keys[i]
    ensures DistinctKeys(n)
  {
    forall i, j | 0 <= i < j < |n|
      ensures n[i].key != n[j].key
    {
      BeforeIsTotal(keys[i], keys[j]);
    }
  }

  lemma NormKeys(n: seq<Member>, keys: seq<Text>)
    requires |n| == |keys| && Ascending(keys) && DistinctKeys(n)
    requires forall i :: 0 <= i < |n| ==> n[i].key == keys[i] && n[i].value != Undefined
    ensures SortedKeys(n) == keys
  {
    SortedKeysAscend(n);
    forall k
      ensures k in SortedKeys(n) <==> k in keys
    {
      if k in keys {
        var i :| 0 <= i < |keys| && keys[i] == k;
        assert n[i].key == k;
      }
    }
    AscendingIsUnique(SortedKeys(n), keys);
  }

  lemma {:induction false} PrintNormMembers(codec: Numbers, v: Value, w: Value, i: nat)
    requires v.Obj? && w.Obj? && Acceptable(v) && Acceptable(w) && i <= |SortedKeys(v.members)|
    requires SortedKeys(v.members) == SortedKeys(w.members)
    requires forall k :: 0 <= k < |SortedKeys(v.members)| ==>
      Print(codec, Get(w.members, SortedKeys(v.members)[k])) == Print(codec, Get(v.members, SortedKeys(v.members)[k]))
    ensures PrintMembers(codec, w, SortedKeys(v.members)[i..]) == PrintMembers(codec, v, SortedKeys(v.members)[i..])
    decreases |SortedKeys(v.members)| - i
  {
    var keys := SortedKeys(v.members);
    if i < |keys| {
      PrintNormMembers(codec, v, w, i + 1);
      assert keys[i..][1..] == keys[i + 1..];
    }
  }

  /** Parsed canonical text is written back as it was, unless it was written for a value with a hole. */
  lemma Recanonicalize(codec: Numbers, v: Value)
    requires Sound(codec) && Parsed(v) && CanonicalJson(codec, v).Some?
    ensures var text := CanonicalJson(codec, v).value;
      JsonParse(codec, text).Some? && CanonicalJson(codec, JsonParse(codec, text).value) == Some(text)
  {
    RoundTrip(codec, v);
    PrintNorm(codec, v);
  }

  /** A text is canonical when parsing it and writing it back changes nothing. */
  predicate IsCanonical(codec: Numbers, text: Text) {
    var v := JsonParse(codec, text);
    v.Some? && CanonicalJson(codec, v.value) == Some(text)
  }

  /** The canonical texts are the ones `canonicalJson` writes for values without holes. */
  lemma CanonicalTexts(codec: Numbers, text: Text)
    requires Sound(codec)
    ensures IsCanonical(codec, text) <==> exists v :: Parsed(v) && CanonicalJson(codec, v) == Some(text)
  {
    if v :| Parsed(v) && CanonicalJson(codec, v) == Some(text) {
      Recanonicalize(codec, v);
    }
  }
}

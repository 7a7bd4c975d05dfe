/**
 * Canonical text is as short as JSON allows: with its numbers spelled as they are written, no text that means
 * the same is shorter, so nothing in it is white space or spelled at greater length than it has to be.
 */
module ShortestText {
  import opened Wrappers
  import opened JsonText
  import opened CanonicalJson

  type Writer = nat -> Text

  // ---- How long a value has to be ----

  /** The characters of a value's shortest spelling. */
  function Size(write: Writer, v: Value): nat
    decreases v
  {
    match v
    case Null => 4
    case Bool(flag) => if flag then 4 else 5
    case Num(n) => NumberSize(write, n)
    case Str(s) => |Quoted(s)|
    case Arr(items) => if items == [] then 2 else 1 + ItemSizes(write, v, |items|)
    case Obj(ms) => if ms == [] then 2 else 1 + MemberSizes(write, v, |ms|)
    case _ => 0
  }

  function NumberSize(write: Writer, n: Number): nat {
    match n
    case NotFinite => 0
    case NegativeZero => |write(0)|
    case Finite(bits) => |write(bits)|
  }

  /** The first items of an array, each with the comma or bracket after it. */
  function ItemSizes(write: Writer, v: Value, k: nat): nat
    requires v.Arr? && k <= |v.items|
    decreases v, k
  {
    if k == 0 then 0 else ItemSizes(write, v, k - 1) + Size(write, v.items[k - 1]) + 1
  }

  /** The first members of an object, each with its colon and the comma or bracket after it. */
  function MemberSizes(write: Writer, v: Value, k: nat): nat
    requires v.Obj? && k <= |v.members|
    decreases v, k
  {
    if k == 0 then 0
    else
      var m := v.members[k - 1];
      MemberSizes(write, v, k - 1) + |Quoted(m.key)| + Size(write, m.value) + 2
  }

  lemma {:induction false} SameItemSizes(write: Writer, v: Value, w: Value, k: nat)
    requires v.Arr? && w.Arr? && k <= |v.items| && k <= |w.items|
    requires forall i :: 0 <= i < k ==> Size(write, v.items[i]) <= Size(write, w.items[i])
    ensures ItemSizes(write, v, k) <= ItemSizes(write, w, k)
  {
    if k > 0 {
      SameItemSizes(write, v, w, k - 1);
    }
  }

  lemma {:induction false} SameMemberSizes(write: Writer, v: Value, w: Value, k: nat)
    requires v.Obj? && w.Obj? && k <= |v.members| && k <= |w.members|
    requires v.members[..k] == w.members[..k]
    ensures MemberSizes(write, v, k) == MemberSizes(write, w, k)
  {
    if k > 0 {
      assert v.members[..k][..k - 1] == v.members[..k - 1] && w.members[..k][..k - 1] == w.members[..k - 1];
      assert v.members[k - 1] == v.members[..k][k - 1] == w.members[k - 1];
      SameMemberSizes(write, v, w, k - 1);
    }
  }

  // ---- Printed text is that long ----

  /** What is written for a value is as long as the value's normal form has to be. */
  lemma {:induction false} PrintSize(codec: Numbers, v: Value)
    requires Keyed(v) && Acceptable(v)
    ensures |Print(codec, v)| == Size(codec.write, Norm(v))
    decreases v
  {
    if v.Arr? {
      assert |Norm(v).items| == |v.items|;
      forall i | 0 <= i < |v.items|
        ensures |PrintItem(codec, v, i)| == Size(codec.write, Norm(v).items[i])
      {
        if v.items[i] != Hole {
          PrintSize(codec, v.items[i]);
        }
      }
      if v.items != [] {
        ItemsSize(codec, v, Norm(v), 0);
      }
    } else if v.Obj? {
      var keys := SortedKeys(v.members);
      assert |Norm(v).members| == |keys|;
      forall i | 0 <= i < |keys|
        ensures |Print(codec, Get(v.members, keys[i]))| == Size(codec.write, Norm(v).members[i].value)
      {
        PrintSize(codec, Get(v.members, keys[i]));
      }
      if keys != [] {
        assert keys[0..] == keys;
        MembersSize(codec, v, Norm(v), 0);
      }
    }
  }

  lemma PrintItemsLength(codec: Numbers, v: Value, i: nat)
    requires v.Arr? && Acceptable(v) && i < |v.items|
    ensures |PrintItems(codec, v, i)| == |PrintItem(codec, v, i)|
      + if i + 1 == |v.items| then 0 else 1 + |PrintItems(codec, v, i + 1)|
  {
  }

  lemma OneMoreSize(write: Writer, n: Value, i: nat)
    requires n.Arr? && i < |n.items|
    ensures ItemSizes(write, n, i + 1) == ItemSizes(write, n, i) + Size(write, n.items[i]) + 1
  {
  }

  lemma {:induction false} ItemsSize(codec: Numbers, v: Value, n: Value, i: nat)
    requires v.Arr? && n.Arr? && Acceptable(v) && i < |v.items| == |n.items|
    requires forall k :: 0 <= k < |v.items| ==> |PrintItem(codec, v, k)| == Size(codec.write, n.items[k])
    ensures ItemSizes(codec.write, n, i) + |PrintItems(codec, v, i)| + 1 == ItemSizes(codec.write, n, |n.items|)
    decreases |v.items| - i
  {
    var size := |PrintItem(codec, v, i)|;
    PrintItemsLength(codec, v, i);
    OneMoreSize(codec.write, n, i);
    if i + 1 < |v.items| {
      ItemsSize(codec, v, n, i + 1);
    }
  }

  lemma {:induction false} MembersSize(codec: Numbers, v: Value, n: Value, i: nat)
    requires v.Obj? && n.Obj? && Acceptable(v) && i < |SortedKeys(v.members)| == |n.members|
    requires forall k :: 0 <= k < |n.members| ==>
      && n.members[k].key == SortedKeys(v.members)[k]
      && |Print(codec, Get(v.members, SortedKeys(v.members)[k]))| == Size(codec.write, n.members[k].value)
    ensures MemberSizes(codec.write, n, i) + |PrintMembers(codec, v, SortedKeys(v.members)[i..])| + 1
      == MemberSizes(codec.write, n, |n.members|)
    decreases |n.members| - i
  {
    var keys := SortedKeys(v.members);
    assert keys[i..][0] == keys[i] && keys[i..][1..] == keys[i + 1..];
    if i + 1 < |keys| {
      MembersSize(codec, v, n, i + 1);
    }
  }

  // ---- A normal form is no longer ----

  function Total(weight: Text -> nat, keys: seq<Text>): nat {
    if keys == [] then 0 else weight(keys[0]) + Total(weight, keys[1..])
  }

  lemma {:induction false} TotalInsert(weight: Text -> nat, key: Text, keys: seq<Text>)
    ensures Total(weight, Insert(key, keys)) == Total(weight, keys) + weight(key)
  {
    if keys != [] && !Before(key, keys[0]) {
      TotalInsert(weight, key, keys[1..]);
      assert Insert(key, keys)[1..] == Insert(key, keys[1..]);
    } else {
      assert ([key] + keys)[1..] == keys;
    }
  }

  lemma {:induction false} SameTotal(f: Text -> nat, g: Text -> nat, keys: seq<Text>)
    requires forall k :: k in keys ==> f(k) == g(k)
    ensures Total(f, keys) == Total(g, keys)
  {
    if keys != [] {
      assert keys[0] in keys;
      SameTotal(f, g, keys[1..]);
    }
  }

  /** What the member with a key adds to an object's length. */
  function Weight(write: Writer, ms: seq<Member>, key: Text): nat {
    if key in SortedKeys(ms) then |Quoted(key)| + Size(write, Norm(Get(ms, key))) + 2 else 0
  }

  function WeightOf(write: Writer, ms: seq<Member>): Text -> nat {
    key => Weight(write, ms, key)
  }

  lemma {:induction false} NormSize(write: Writer, v: Value)
    requires Keyed(v)
    ensures Size(write, Norm(v)) <= Size(write, v)
    decreases v
  {
    if v.Arr? {
      assert |Norm(v).items| == |v.items|;
      forall i | 0 <= i < |v.items|
        ensures Size(write, Norm(v).items[i]) <= Size(write, v.items[i])
      {
        NormSize(write, v.items[i]);
      }
      SameItemSizes(write, Norm(v), v, |v.items|);
    } else if v.Obj? {
      forall i | 0 <= i < |v.members|
        ensures Size(write, Norm(v.members[i].value)) <= Size(write, v.members[i].value)
      {
        NormSize(write, v.members[i].value);
      }
      KeysTotal(write, v.members);
      TotalIsSizes(write, v, 0);
      assert SortedKeys(v.members)[0..] == SortedKeys(v.members);
      if v.members != [] {
        assert MemberSizes(write, v, |v.members|) >= 2;
      }
    }
  }

  lemma {:induction false} FirstMember(write: Writer, ms: seq<Member>, k: nat)
    requires 0 < k <= |ms|
    ensures MemberSizes(write, Obj(ms), k)
      == |Quoted(ms[0].key)| + Size(write, ms[0].value) + 2 + MemberSizes(write, Obj(ms[1..]), k - 1)
  {
    if k > 1 {
      FirstMember(write, ms, k - 1);
      assert ms[1..][k - 2] == ms[k - 1];
    }
  }

  lemma {:induction false} KeysTotal(write: Writer, ms: seq<Member>)
    requires DistinctKeys(ms)
    requires forall i :: 0 <= i < |ms| ==> Size(write, Norm(ms[i].value)) <= Size(write, ms[i].value)
    ensures Total(WeightOf(write, ms), SortedKeys(ms)) <= MemberSizes(write, Obj(ms), |ms|)
  {
    if ms != [] {
      var rest := ms[1..];
      KeysTotal(write, rest);
      FirstMember(write, ms, |ms|);
      RestWeights(write, ms);
      SameTotal(WeightOf(write, ms), WeightOf(write, rest), SortedKeys(rest));
      if ms[0].value != Undefined {
        TotalInsert(WeightOf(write, ms), ms[0].key, SortedKeys(rest));
        NormMember(ms, 0);
      }
    }
  }

  lemma RestWeights(write: Writer, ms: seq<Member>)
    requires DistinctKeys(ms) && ms != []
    ensures forall k :: k in SortedKeys(ms[1..]) ==> Weight(write, ms, k) == Weight(write, ms[1..], k)
  {
    forall k | k in SortedKeys(ms[1..])
      ensures Weight(write, ms, k) == Weight(write, ms[1..], k)
    {
      var i := Find(ms[1..], k);
      assert ms[1..][i] == ms[i + 1];
      NormMember(ms, i + 1);
    }
  }

  lemma {:induction false} TotalIsSizes(write: Writer, v: Value, i: nat)
    requires v.Obj? && i <= |SortedKeys(v.members)|
    ensures |Norm(v).members| == |SortedKeys(v.members)|
    ensures MemberSizes(write, Norm(v), i) + Total(WeightOf(write, v.members), SortedKeys(v.members)[i..])
      == MemberSizes(write, Norm(v), |Norm(v).members|)
    decreases |SortedKeys(v.members)| - i
  {
    var keys := SortedKeys(v.members);
    if i < |keys| {
      assert keys[i..][0] == keys[i] && keys[i..][1..] == keys[i + 1..];
      TotalIsSizes(write, v, i + 1);
    }
  }

  // ---- What is read is at least that long ----

  /** No text that is read as a number is shorter than what is written for it. */
  ghost predicate NoShorter(codec: Numbers) {
    forall t: Text :: codec.read(t).Some? ==> NumberSize(codec.write, codec.read(t).value) <= |t|
  }

  lemma UnitSize(t: Text)
    requires t != [] && t[0] != QUOTE && ReadUnit(t).Some?
    ensures |Escape(ReadUnit(t).value.value)| + |ReadUnit(t).value.rest| <= |t|
  {
  }

  lemma {:induction false} StringSize(t: Text)
    requires ReadString(t).Some?
    ensures |Escaped(ReadString(t).value.value)| + 1 + |ReadString(t).value.rest| <= |t|
    decreases |t|
  {
    if t[0] != QUOTE {
      UnitSize(t);
      var first := ReadUnit(t).value;
      StringSize(first.rest);
      var more := ReadString(first.rest).value;
      assert ([first.value] + more.value)[1..] == more.value;
    }
  }

  lemma ScalarSize(codec: Numbers, text: Text)
    requires NoShorter(codec) && ParseValue(codec, text).Some?
    requires SkipSpace(text) == text && text[0] != OPEN_LIST && text[0] != OPEN_OBJECT
    ensures var r := ParseValue(codec, text).value; Size(codec.write, r.value) + |r.rest| <= |text|
  {
    if text[0] == QUOTE {
      StringSize(text[1..]);
    }
  }

  lemma {:induction false} SkipTwice(text: Text)
    ensures SkipSpace(SkipSpace(text)) == SkipSpace(text)
  {
    if text != [] && Space(text[0]) {
      SkipTwice(text[1..]);
    }
  }

  lemma ParseSkips(codec: Numbers, text: Text)
    ensures ParseValue(codec, text) == ParseValue(codec, SkipSpace(text))
  {
    SkipTwice(text);
  }

  lemma {:induction false} ValueSize(codec: Numbers, text: Text)
    requires NoShorter(codec) && ParseValue(codec, text).Some?
    ensures var r := ParseValue(codec, text).value; Size(codec.write, r.value) + |r.rest| <= |text|
    decreases |text|, 1
  {
    var t := SkipSpace(text);
    SkipTwice(text);
    ParseSkips(codec, text);
    if t[0] == OPEN_LIST {
      var after := SkipSpace(t[1..]);
      if after == [] || after[0] != CLOSE_LIST {
        ItemsAreRead(codec, [], t[1..]);
      }
    } else if t[0] == OPEN_OBJECT {
      var after := SkipSpace(t[1..]);
      if after == [] || after[0] != CLOSE_OBJECT {
        MembersAreRead(codec, [], t[1..]);
      }
    } else {
      ScalarSize(codec, t);
    }
  }

  lemma OneMoreItem(write: Writer, items: seq<Value>, x: Value)
    ensures ItemSizes(write, Arr(items + [x]), |items| + 1)
      <= ItemSizes(write, Arr(items), |items|) + Size(write, x) + 1
  {
    SameItemSizes(write, Arr(items + [x]), Arr(items), |items|);
  }

  /** Where the items of a list that is read begin, and what is left to read after the first of them. */
  lemma ItemIsRead(codec: Numbers, done: seq<Value>, t: Text)
    requires (forall i :: 0 <= i < |done| ==> Parsed(done[i])) && ParseItems(codec, done, t).Some?
    ensures ParseValue(codec, t).Some? && forall i :: 0 <= i < |done + [ParseValue(codec, t).value.value]| ==>
      Parsed((done + [ParseValue(codec, t).value.value])[i])
    ensures var x, after := ParseValue(codec, t).value.value, SkipSpace(ParseValue(codec, t).value.rest);
      && after != []
      && ParseItems(codec, done, t) == if after[0] == COMMA then ParseItems(codec, done + [x], after[1..])
        else Some(Read(Arr(done + [x]), after[1..]))
  {
  }

  lemma {:induction false} ItemsAreRead(codec: Numbers, done: seq<Value>, t: Text)
    requires NoShorter(codec) && forall i :: 0 <= i < |done| ==> Parsed(done[i])
    requires ParseItems(codec, done, t).Some?
    ensures var r := ParseItems(codec, done, t).value;
      && r.value.Arr? && r.value.items != []
      && ItemSizes(codec.write, r.value, |r.value.items|) + |r.rest|
        <= ItemSizes(codec.write, Arr(done), |done|) + |t|
    decreases |t|, 2
  {
    ItemIsRead(codec, done, t);
    ValueSize(codec, t);
    var item := ParseValue(codec, t).value;
    var after := SkipSpace(item.rest);
    OneMoreItem(codec.write, done, item.value);
    if after[0] == COMMA {
      ItemsAreRead(codec, done + [item.value], after[1..]);
    }
  }

  lemma {:induction false} MembersAreRead(codec: Numbers, done: seq<Member>, text: Text)
    requires NoShorter(codec) && Parsed(Obj(done)) && ParseMembers(codec, done, text).Some?
    ensures var r := ParseMembers(codec, done, text).value;
      && r.value.Obj? && r.value.members != []
      && MemberSizes(codec.write, r.value, |r.value.members|) + |r.rest|
        <= MemberSizes(codec.write, Obj(done), |done|) + |text|
    decreases |text|, 2
  {
    var t := SkipSpace(text);
    StringSize(t[1..]);
    var key := ReadString(t[1..]).value;
    var colon := SkipSpace(key.rest);
    ValueSize(codec, colon[1..]);
    var item := ParseValue(codec, colon[1..]).value;
    var after := SkipSpace(item.rest);
    PutParsed(done, key.value, item.value);
    PutSize(codec.write, done, key.value, item.value);
    if after[0] == COMMA {
      MembersAreRead(codec, Put(done, key.value, item.value), after[1..]);
    }
  }

  /** A key that was set before only makes a text longer. */
  lemma {:induction false} PutSize(write: Writer, ms: seq<Member>, key: Text, value: Value)
    requires DistinctKeys(ms)
    ensures var r := Put(ms, key, value);
      && r != []
      && MemberSizes(write, Obj(r), |r|)
        <= MemberSizes(write, Obj(ms), |ms|) + |Quoted(key)| + Size(write, value) + 2
  {
    var m := Member(key, value);
    if ms == [] {
      InFront(write, m, []);
      assert [m] + [] == [m];
    } else {
      InFront(write, ms[0], ms[1..]);
      assert [ms[0]] + ms[1..] == ms;
      if ms[0].key == key {
        InFront(write, m, ms[1..]);
      } else {
        PutSize(write, ms[1..], key, value);
        InFront(write, ms[0], Put(ms[1..], key, value));
      }
    }
  }

  lemma InFront(write: Writer, m: Member, rest: seq<Member>)
    ensures MemberSizes(write, Obj([m] + rest), |[m] + rest|)
      == |Quoted(m.key)| + Size(write, m.value) + 2 + MemberSizes(write, Obj(rest), |rest|)
  {
    FirstMember(write, [m] + rest, |rest| + 1);
    assert ([m] + rest)[1..] == rest;
  }

  // ---- Main result ----

  /** The reader that takes a number only as it is written. */
  function Exactly(codec: Numbers): Numbers {
    Numbers(codec.write, t =>
      match codec.read(t)
      case Some(Finite(bits)) => if codec.write(bits) == t then Some(Finite(bits)) else None
      case _ => None)
  }

  /**
   * Among the texts whose numbers are spelled as they are written, none that means the same as a value is
   * shorter than the value's canonical text.
   */
  lemma CanonicalIsShortest(codec: Numbers, v: Value, text: Text)
    requires Sound(codec) && Keyed(v) && CanonicalJson.CanonicalJson(codec, v).Some?
    requires JsonParse(Exactly(codec), text).Some? && SameMeaning(JsonParse(Exactly(codec), text).value, v)
    ensures |CanonicalJson.CanonicalJson(codec, v).value| <= |text|
  {
    var w := JsonParse(Exactly(codec), text).value;
    ValueSize(Exactly(codec), text);
    NormDecidesMeaning(w, v);
    NormSize(codec.write, w);
    PrintSize(codec, v);
  }

  /** And the canonical text is one of them, unless an array in the value has a hole. */
  lemma CanonicalIsAmongThem(codec: Numbers, v: Value)
    requires Sound(codec) && Parsed(v) && CanonicalJson.CanonicalJson(codec, v).Some?
    ensures var text := CanonicalJson.CanonicalJson(codec, v).value;
      JsonParse(Exactly(codec), text).Some? && SameMeaning(JsonParse(Exactly(codec), text).value, v)
  {
    assert Sound(Exactly(codec));
    SamePrint(codec, Exactly(codec), v);
    RoundTrip(Exactly(codec), v);
    PrintNorm(codec, v);
    NormIsDense(v);
    SameTextSameMeaning(codec, Norm(v), v);
  }

  /** What is written depends on how numbers are written only. */
  lemma {:induction false} SamePrint(a: Numbers, b: Numbers, v: Value)
    requires a.write == b.write && Acceptable(v)
    ensures Print(a, v) == Print(b, v)
    decreases v
  {
    if v.Arr? {
      forall i | 0 <= i < |v.items|
        ensures PrintItem(a, v, i) == PrintItem(b, v, i)
      {
        if v.items[i] != Hole {
          SamePrint(a, b, v.items[i]);
        }
      }
      SamePrintItems(a, b, v, 0);
    } else if v.Obj? {
      forall k | k in SortedKeys(v.members)
        ensures Print(a, Get(v.members, k)) == Print(b, Get(v.members, k))
      {
        SamePrint(a, b, v.members[Find(v.members, k)].value);
      }
      SamePrintMembers(a, b, v, SortedKeys(v.members));
    }
  }

  lemma {:induction false} SamePrintItems(a: Numbers, b: Numbers, v: Value, i: nat)
    requires v.Arr? && Acceptable(v) && i <= |v.items|
    requires forall k :: 0 <= k < |v.items| ==> PrintItem(a, v, k) == PrintItem(b, v, k)
    ensures PrintItems(a, v, i) == PrintItems(b, v, i)
    decreases |v.items| - i
  {
    if i < |v.items| {
      SamePrintItems(a, b, v, i + 1);
    }
  }

  lemma {:induction false} SamePrintMembers(a: Numbers, b: Numbers, v: Value, keys: seq<Text>)
    requires v.Obj? && Acceptable(v) && forall k :: k in keys ==> k in SortedKeys(v.members)
    requires forall k :: k in keys ==> Print(a, Get(v.members, k)) == Print(b, Get(v.members, k))
    ensures PrintMembers(a, v, keys) == PrintMembers(b, v, keys)
  {
    if keys != [] {
      assert keys[0] in keys;
      SamePrintMembers(a, b, v, keys[1..]);
    }
  }
}

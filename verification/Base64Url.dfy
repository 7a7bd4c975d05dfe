/**
 * Unpadded base64url, sections 3.5 and 5 of RFC 4648, as `encoding.ts` writes and reads it.
 * A text and a byte string are compared as the numbers their digits spell.
 */
module Base64Url {
  import opened Wrappers

  type byte = x: int | 0 <= x < 256
  type sextet = x: int | 0 <= x < 64

  /** The digit at a place of the alphabet A-Z, a-z, 0-9, `-`, `_`. */
  function Digit(v: sextet): (c: char)
    ensures Place(c) == v
  {
    if v < 26 then (v + 'A' as int) as char
    else if v < 52 then (v - 26 + 'a' as int) as char
    else if v < 62 then (v - 52 + '0' as int) as char
    else if v == 62 then '-' else '_'
  }

  const UPPER_CASE := "ABCDEFGHIJKLMNOPQRSTUVWXYZ"
  const LOWER_CASE := "abcdefghijklmnopqrstuvwxyz"
  const NUMERALS := "0123456789"

  /** The alphabet as the standard prints it (table 2 of RFC 4648). */
  lemma DigitIs(v: sextet)
    ensures v < 26 ==> Digit(v) == UPPER_CASE[v]
    ensures 26 <= v < 52 ==> Digit(v) == LOWER_CASE[v - 26]
    ensures 52 <= v < 62 ==> Digit(v) == NUMERALS[v - 52]
    ensures v == 62 ==> Digit(v) == '-'
    ensures v == 63 ==> Digit(v) == '_'
  {
  }

  /** The place of a digit in the alphabet, or -1. */
  function Place(c: char): (v: int)
    ensures -1 <= v < 64
  {
    if 'A' <= c <= 'Z' then c as int - 'A' as int
    else if 'a' <= c <= 'z' then c as int - 'a' as int + 26
    else if '0' <= c <= '9' then c as int - '0' as int + 52
    else if c == '-' then 62
    else if c == '_' then 63
    else -1
  }

  lemma DigitOfPlace(c: char)
    requires Place(c) >= 0
    ensures Digit(Place(c)) == c
  {
  }

  predicate IsDigits(t: string) {
    forall i :: 0 <= i < |t| ==> Place(t[i]) >= 0
  }

  /** The number the bytes spell in base 256. */
  function BytesValue(b: seq<byte>): nat {
    if b == [] then 0 else BytesValue(b[..|b| - 1]) * 256 + b[|b| - 1]
  }

  /** The number the digits spell in base 64. */
  function TextValue(t: string): nat
    requires IsDigits(t)
  {
    if t == [] then 0 else TextValue(t[..|t| - 1]) * 64 + Place(t[|t| - 1])
  }

  /** The digits that carry `n` bytes, and the zero bits after them. */
  function TextLength(n: nat): nat {
    (n * 8 + 5) / 6
  }

  function ByteCount(digits: nat): nat {
    digits * 6 / 8
  }

  lemma By3(x: int, q: int, r: int)
    requires x == 3 * q + r && 0 <= r < 3
    ensures x / 3 == q && x % 3 == r
  {
  }

  lemma By4(x: int, q: int, r: int)
    requires x == 4 * q + r && 0 <= r < 4
    ensures x / 4 == q && x % 4 == r
  {
  }

  lemma By6(x: int, q: int, r: int)
    requires x == 6 * q + r && 0 <= r < 6
    ensures x / 6 == q && x % 6 == r
  {
  }

  lemma By8(x: int, q: int, r: int)
    requires x == 8 * q + r && 0 <= r < 8
    ensures x / 8 == q && x % 8 == r
  {
  }

  /** Four digits hold three bytes. */
  lemma CountsByFours(k: nat, m: nat)
    requires m < 4
    ensures (4 * k + m) % 4 == m
    ensures ByteCount(4 * k + m) == 3 * k + (if m == 3 then 2 else if m == 2 then 1 else 0)
  {
    By4(4 * k + m, k, m);
    var j := if m == 3 then 2 else if m == 2 then 1 else 0;
    By8((4 * k + m) * 6, 3 * k + j, 6 * m - 8 * j);
  }

  /** Three bytes take four digits. */
  lemma CountsByThrees(k: nat, m: nat)
    requires m < 3
    ensures (3 * k + m) % 3 == m
    ensures TextLength(3 * k + m) == 4 * k + (if m == 0 then 0 else m + 1)
  {
    By3(3 * k + m, k, m);
    var j := if m == 0 then 0 else m + 1;
    By6((3 * k + m) * 8 + 5, 4 * k + j, 8 * m + 5 - 6 * j);
  }

  /** 2 to the number of bits left over after whole bytes: 1, 64, 16 or 4. */
  function Spare(digits: nat): nat {
    match digits % 4
    case 0 => 1
    case 1 => 64
    case 2 => 16
    case _ => 4
  }

  /** The text spells the bytes followed by zero bits. */
  ghost predicate Encodes(b: seq<byte>, t: string) {
    IsDigits(t) && |t| == TextLength(|b|) && TextValue(t) == BytesValue(b) * Spare(|t|)
  }

  lemma {:induction false} BytesValueDetermines(a: seq<byte>, b: seq<byte>)
    requires |a| == |b| && BytesValue(a) == BytesValue(b)
    ensures a == b
  {
    if a != [] {
      BytesValueDetermines(a[..|a| - 1], b[..|b| - 1]);
      assert a == a[..|a| - 1] + [a[|a| - 1]] && b == b[..|b| - 1] + [b[|b| - 1]];
    }
  }

  lemma SplitDigit(a: nat, b: nat, p: int, q: int)
    requires 0 <= p < 64 && 0 <= q < 64 && a * 64 + p == b * 64 + q
    ensures a == b && p == q
  {
  }

  lemma {:induction false} TextValueDetermines(s: string, t: string)
    requires IsDigits(s) && IsDigits(t) && |s| == |t| && TextValue(s) == TextValue(t)
    ensures s == t
  {
    if s != [] {
      SplitDigit(TextValue(s[..|s| - 1]), TextValue(t[..|t| - 1]), Place(s[|s| - 1]), Place(t[|t| - 1]));
      TextValueDetermines(s[..|s| - 1], t[..|t| - 1]);
      DigitOfPlace(s[|s| - 1]);
      DigitOfPlace(t[|t| - 1]);
      assert s == s[..|s| - 1] + [s[|s| - 1]] && t == t[..|t| - 1] + [t[|t| - 1]];
    }
  }

  /** Each byte string has one spelling, and each spelling one byte string. */
  lemma EncodesIsOneToOne(a: seq<byte>, s: string, b: seq<byte>, t: string)
    requires Encodes(a, s) && Encodes(b, t)
    ensures a == b <==> s == t
  {
    if a == b {
      TextValueDetermines(s, t);
    }
    if s == t {
      assert |a| == |b| by {
        assert TextLength(|a|) == TextLength(|b|);
      }
      SpareCancels(BytesValue(a), BytesValue(b), |s|);
      BytesValueDetermines(a, b);
    }
  }

  lemma SpareCancels(x: nat, y: nat, digits: nat)
    requires x * Spare(digits) == y * Spare(digits)
    ensures x == y
  {
  }

  /** What a text decodes to: the one byte string it spells, if it spells any. */
  ghost function Decode(text: string): (r: Option<seq<byte>>)
    ensures r.Some? ==> Encodes(r.value, text)
    ensures r.None? ==> forall b: seq<byte> :: !Encodes(b, text)
  {
    if b: seq<byte> :| Encodes(b, text) then Some(b) else None
  }

  lemma DecodeIs(b: seq<byte>, text: string)
    requires Encodes(b, text)
    ensures Decode(text) == Some(b)
  {
    EncodesIsOneToOne(b, text, Decode(text).value, text);
  }

  /** The three bytes at a place as one 24-bit number, a missing byte as zero. */
  function Chunk(b: seq<byte>, i: nat): (r: nat)
    requires i < |b|
    ensures r < 0x1000000
  {
    var x: int, y: int, z: int := b[i], if i + 1 < |b| then b[i + 1] else 0, if i + 2 < |b| then b[i + 2] else 0;
    x * 65536 + y * 256 + z
  }

  /** Digit `c` of a chunk: the bits from `18 - 6 * c` on. */
  function ChunkDigit(chunk: nat, c: nat): char
    requires chunk < 0x1000000 && c < 4
  {
    match c
    case 0 => Digit(chunk / 262144 % 64)
    case 1 => Digit(chunk / 4096 % 64)
    case 2 => Digit(chunk / 64 % 64)
    case _ => Digit(chunk % 64)
  }

  /** The first digits of a chunk. */
  function ChunkDigits(chunk: nat, count: nat): (t: string)
    requires chunk < 0x1000000 && count <= 4
    ensures |t| == count && IsDigits(t)
  {
    if count == 0 then "" else ChunkDigits(chunk, count - 1) + [ChunkDigit(chunk, count - 1)]
  }

  /** How many digits the bytes from `i` on take, four at most. */
  function CharsAt(n: nat, i: nat): nat
    requires i < n
  {
    Min(4, ((n - i) * 8 + 5) / 6)
  }

  /** Where the last chunk of some bytes begins. */
  function LastChunk(n: nat): (i: nat)
    requires n > 0
    ensures i % 3 == 0 && i < n <= i + 3
  {
    (n - 1) / 3 * 3
  }

  lemma LastChunkIs(n: nat, i: nat)
    requires i % 3 == 0 && i < n <= i + 3
    ensures LastChunk(n) == i
  {
    By3(n - 1, i / 3, n - 1 - i);
  }

  /** Three bytes at a time, and fewer at the end. */
  function Encode(b: seq<byte>): (t: string)
    ensures IsDigits(t)
  {
    if b == [] then ""
    else
      var i := LastChunk(|b|);
      Encode(b[..i]) + ChunkDigits(Chunk(b, i), CharsAt(|b|, i))
  }

  lemma TextValueOne(t: string, c: char)
    requires IsDigits(t) && Place(c) >= 0
    ensures IsDigits(t + [c]) && TextValue(t + [c]) == TextValue(t) * 64 + Place(c)
  {
    assert (t + [c])[..|t|] == t;
  }

  /** The first `count` digits of a chunk, read as a number after the digits of `t`. */
  lemma {:induction false} ChunkValue(t: string, chunk: nat, count: nat)
    requires IsDigits(t) && chunk < 0x1000000 && count <= 4
    ensures var whole := t + ChunkDigits(chunk, count);
      && IsDigits(whole)
      && TextValue(whole) == Shifted(TextValue(t), count) + chunk / Radix(4 - count)
  {
    if count == 0 {
      assert t + ChunkDigits(chunk, 0) == t;
    } else {
      ChunkValue(t, chunk, count - 1);
      var whole := t + ChunkDigits(chunk, count - 1);
      var d := ChunkDigit(chunk, count - 1);
      TextValueOne(whole, d);
      assert t + ChunkDigits(chunk, count) == whole + [d];
      NextDigit(chunk, count);
    }
  }

  /** A number with `n` more digits after it. */
  function Shifted(v: nat, n: nat): nat {
    if n == 0 then v else Shifted(v, n - 1) * 64
  }

  /** 64 to the power of `n`. */
  function Radix(n: nat): nat {
    match n
    case 0 => 1
    case 1 => 64
    case 2 => 4096
    case 3 => 262144
    case _ => 16777216
  }

  lemma NextDigit(chunk: nat, count: nat)
    requires chunk < 0x1000000 && 1 <= count <= 4
    ensures chunk / Radix(5 - count) * 64 + Place(ChunkDigit(chunk, count - 1)) == chunk / Radix(4 - count)
  {
    var high := chunk / Radix(4 - count);
    match count
    case 1 => assert high < 64 && chunk / 16777216 == 0;
    case 2 => assert chunk / 4096 / 64 == chunk / 262144;
    case 3 => assert chunk / 64 / 64 == chunk / 4096;
    case 4 => assert chunk / 1 == chunk;
  }

  /** What `Encode` writes spells the bytes. */
  lemma {:induction false} EncodeEncodes(b: seq<byte>)
    ensures Encodes(b, Encode(b))
  {
    if b != [] {
      var i := LastChunk(|b|);
      EncodeEncodes(b[..i]);
      OneMoreChunk(b, i, Encode(b[..i]));
    }
  }

  lemma OneMoreChunk(b: seq<byte>, i: nat, t: string)
    requires i < |b| <= i + 3 && i % 3 == 0 && Encodes(b[..i], t)
    ensures Encodes(b, t + ChunkDigits(Chunk(b, i), CharsAt(|b|, i)))
  {
    var more := |b| - i;
    Lengths(i, more);
    SparesNothing(BytesValue(b[..i]), TextValue(t), |t|);
    ChunkTotals(b, i, t, more);
    var whole := t + ChunkDigits(Chunk(b, i), more + 1);
    SparesTheRest(BytesValue(b), TextValue(whole), more, |whole|);
  }

  lemma SparesNothing(bytes: nat, digits: nat, length: nat)
    requires digits == bytes * Spare(length) && Spare(length) == 1
    ensures digits == bytes
  {
  }

  lemma ChunkTotals(b: seq<byte>, i: nat, t: string, more: nat)
    requires i < |b| == i + more <= i + 3 && IsDigits(t) && TextValue(t) == BytesValue(b[..i])
    ensures var whole := t + ChunkDigits(Chunk(b, i), more + 1);
      && IsDigits(whole) && |whole| == |t| + more + 1
      && TextValue(whole) == if more == 1 then BytesValue(b) * 16 else if more == 2 then BytesValue(b) * 4
        else BytesValue(b)
  {
    var whole := t + ChunkDigits(Chunk(b, i), more + 1);
    ChunkValue(t, Chunk(b, i), more + 1);
    BytesValueFrom(b, i);
    ChunkSums(TextValue(t), BytesValue(b), TextValue(whole), Chunk(b, i), more);
  }

  lemma SparesTheRest(bytes: nat, digits: nat, more: nat, length: nat)
    requires 1 <= more <= 3 && Spare(length) == (if more == 1 then 16 else if more == 2 then 4 else 1)
    requires digits == if more == 1 then bytes * 16 else if more == 2 then bytes * 4 else bytes
    ensures digits == bytes * Spare(length)
  {
  }

  lemma ChunkSums(before: nat, bytes: nat, digits: nat, chunk: nat, more: nat)
    requires 1 <= more <= 3 && digits == Shifted(before, more + 1) + chunk / Radix(3 - more)
    requires more == 1 ==> bytes * 16 == before * 4096 + chunk / 4096
    requires more == 2 ==> bytes * 4 == before * 262144 + chunk / 64
    requires more == 3 ==> bytes == before * 16777216 + chunk
    ensures digits == if more == 1 then bytes * 16 else if more == 2 then bytes * 4 else bytes
  {
    assert Shifted(before, 1) == before * 64 && Shifted(before, 2) == before * 4096;
    assert Shifted(before, 3) == before * 262144 && Shifted(before, 4) == before * 16777216;
  }

  lemma Lengths(i: nat, more: nat)
    requires i % 3 == 0 && 1 <= more <= 3
    ensures TextLength(i) % 4 == 0 && CharsAt(i + more, i) == more + 1
    ensures TextLength(i + more) == TextLength(i) + more + 1
    ensures Spare(TextLength(i)) == 1
    ensures Spare(TextLength(i + more)) == (if more == 1 then 16 else if more == 2 then 4 else 1)
  {
    var k := i / 3;
    CountsByThrees(k, 0);
    if more == 3 {
      CountsByThrees(k + 1, 0);
    } else {
      CountsByThrees(k, more);
    }
    CountsByFours(k, 0);
    CountsByFours(if more == 3 then k + 1 else k, if more == 3 then 0 else more + 1);
  }

  /** The number of a string of bytes, split before its last chunk. */
  lemma BytesValueFrom(b: seq<byte>, i: nat)
    requires i < |b| <= i + 3
    ensures |b| == i + 1 ==> BytesValue(b) * 16 == BytesValue(b[..i]) * 4096 + Chunk(b, i) / 4096
    ensures |b| == i + 2 ==> BytesValue(b) * 4 == BytesValue(b[..i]) * 262144 + Chunk(b, i) / 64
    ensures |b| == i + 3 ==> BytesValue(b) == BytesValue(b[..i]) * 16777216 + Chunk(b, i)
  {
    BytesValueNext(b, |b| - 1);
    if |b| > i + 1 {
      BytesValueNext(b, |b| - 2);
    }
    if |b| > i + 2 {
      BytesValueNext(b, |b| - 3);
    }
  }

  lemma BytesValueNext(b: seq<byte>, i: nat)
    requires i < |b|
    ensures BytesValue(b[..i + 1]) == BytesValue(b[..i]) * 256 + b[i]
    ensures b[..|b|] == b
  {
    assert b[..i + 1][..i] == b[..i];
  }

  /** Decoding undoes encoding, on every byte string. */
  lemma DecodeEncode(b: seq<byte>)
    ensures Decode(Encode(b)) == Some(b)
  {
    EncodeEncodes(b);
    DecodeIs(b, Encode(b));
  }

  /** Encoding undoes decoding, on every text the decoder accepts. */
  lemma EncodeDecode(t: string)
    requires Decode(t).Some?
    ensures Encode(Decode(t).value) == t
  {
    EncodeEncodes(Decode(t).value);
    EncodesIsOneToOne(Decode(t).value, t, Decode(t).value, Encode(Decode(t).value));
  }

  method ToBase64Url(bytes: seq<byte>) returns (out: string)
    ensures out == Encode(bytes)
  {
    out := "";
    var i := 0;
    while i < |bytes|
      invariant 0 <= i && i % 3 == 0
      invariant out == Encode(bytes[..Min(i, |bytes|)])
      decreases |bytes| - i
    {
      EncodeStep(bytes, i);
      out := AppendDigits(out, Chunk(bytes, i), CharsAt(|bytes|, i));
      i := i + 3;
    }
    assert bytes[..|bytes|] == bytes;
  }

  /** The inner loop: the first digits of a chunk. */
  method AppendDigits(start: string, chunk: nat, chars: nat) returns (out: string)
    requires chunk < 0x1000000 && chars <= 4
    ensures out == start + ChunkDigits(chunk, chars)
  {
    out := start;
    var c := 0;
    while c < chars
      invariant 0 <= c <= chars
      invariant out == start + ChunkDigits(chunk, c)
    {
      Regroup(start, ChunkDigits(chunk, c), [ChunkDigit(chunk, c)]);
      out := out + [ChunkDigit(chunk, c)];
      c := c + 1;
    }
  }

  lemma Regroup(a: string, b: string, c: string)
    ensures a + b + c == a + (b + c)
  {
  }

  lemma EncodeStep(b: seq<byte>, i: nat)
    requires i < |b| && i % 3 == 0
    ensures Encode(b[..Min(i + 3, |b|)]) == Encode(b[..i]) + ChunkDigits(Chunk(b, i), CharsAt(|b|, i))
  {
    var prefix := b[..Min(i + 3, |b|)];
    LastChunkIs(|prefix|, i);
    assert prefix[..i] == b[..i];
    assert Chunk(prefix, i) == Chunk(b, i);
    CharsOfPrefix(|b|, i);
  }

  lemma CharsOfPrefix(n: nat, i: nat)
    requires i < n
    ensures CharsAt(Min(i + 3, n), i) == CharsAt(n, i)
  {
  }

  function Min(a: int, b: int): int {
    if a < b then a else b
  }

  /** One more digit, when the left-over bits do not yet fill a byte, and when they do. */
  lemma PushDigit(digits: nat, bytes: nat, rest: nat, v: sextet) returns (next: nat, left: nat)
    requires rest < Spare(digits)
    ensures digits % 4 == 0 ==> Spare(digits + 1) == 64 && next == bytes && left == v
    ensures digits % 4 != 0 ==>
      next == bytes * 256 + (rest * 64 + v) / Spare(digits + 1) && left == (rest * 64 + v) % Spare(digits + 1)
    ensures (bytes * Spare(digits) + rest) * 64 + v == next * Spare(digits + 1) + left
    ensures left < Spare(digits + 1) && (digits % 4 != 0 ==> (rest * 64 + v) / Spare(digits + 1) < 256)
  {
    var p, q := Spare(digits), Spare(digits + 1);
    if digits % 4 == 0 {
      next, left := bytes, v;
    } else {
      next, left := bytes * 256 + (rest * 64 + v) / q, (rest * 64 + v) % q;
      if digits % 4 == 1 {
        assert p == 64 && q == 16;
      } else if digits % 4 == 2 {
        assert p == 16 && q == 4;
      } else {
        assert p == 4 && q == 1;
      }
    }
  }

  method FromBase64Url(text: string) returns (r: Option<seq<byte>>)
    ensures r == Decode(text)
  {
    if |text| % 4 == 1 {
      NoSuchLength(text);
      return None;
    }
    var bytes := new byte[|text| * 6 / 8];
    var buffer: nat, bits: nat, index: nat := 0, 0, 0;
    var i := 0;
    while i < |text|
      invariant 0 <= i <= |text| && index == ByteCount(i) <= bytes.Length
      invariant Progress(text, i, bytes[..index], buffer, bits)
    {
      var value := Place(text[i]);
      if value == -1 {
        assert !IsDigits(text);
        return None;
      }
      ProgressStep(text, i, bytes[..index], buffer, bits);
      buffer := (buffer * 64 + value) % 0x1000000;
      bits := bits + 6;
      if bits >= 8 {
        bits := bits - 8;
        ghost var before := bytes[..index];
        bytes[index] := buffer / Power(bits) % 256;
        assert bytes[..index + 1] == before + [bytes[index]];
        index := index + 1;
      }
      i := i + 1;
    }
    assert bytes[..index] == bytes[..];
    AllRead(text, bytes[..], buffer, bits);
    r := if buffer % Power(bits) != 0 then None else Some(bytes[..]);
  }

  lemma NoSuchLength(text: string)
    requires |text| % 4 == 1
    ensures Decode(text) == None
  {
    forall b: seq<byte>
      ensures !Encodes(b, text)
    {
      assert TextLength(|b|) % 4 != 1;
    }
  }

  /** Once every digit is read, bits that are left over must be zero. */
  lemma AllRead(text: string, done: seq<byte>, buffer: nat, bits: nat)
    requires |text| % 4 != 1 && Progress(text, |text|, done, buffer, bits)
    ensures Decode(text) == if buffer % Power(bits) != 0 then None else Some(done)
  {
    assert text[..|text|] == text;
    if buffer % Power(bits) != 0 {
      forall b: seq<byte>
        ensures !Encodes(b, text)
      {
        TrailingBits(BytesValue(done), buffer % Power(bits), BytesValue(b), |text|);
      }
    } else {
      LengthsAgree(|text|);
      DecodeIs(done, text);
    }
  }

  /** After `i` digits: the whole bytes are written, and the buffer's low bits are what is left. */
  ghost predicate Progress(text: string, i: nat, done: seq<byte>, buffer: nat, bits: nat) {
    && i <= |text| && IsDigits(text[..i]) && buffer < 0x1000000
    && |done| == ByteCount(i) && bits == SpareBits(i)
    && TextValue(text[..i]) == BytesValue(done) * Spare(i) + buffer % Spare(i)
  }

  lemma ProgressStep(text: string, i: nat, done: seq<byte>, buffer: nat, bits: nat)
    requires i < |text| && Place(text[i]) >= 0 && Progress(text, i, done, buffer, bits)
    ensures ByteCount(i + 1) <= ByteCount(|text|)
    ensures var next := (buffer * 64 + Place(text[i])) % 0x1000000;
      if bits >= 2 then Progress(text, i + 1, done + [next / Power(bits - 2) % 256], next, bits - 2)
      else Progress(text, i + 1, done, next, bits + 6)
  {
    var v := Place(text[i]);
    var next := (buffer * 64 + v) % 0x1000000;
    var rest := buffer % Spare(i);
    TextValueOne(text[..i], text[i]);
    assert text[..i + 1] == text[..i] + [text[i]];
    var whole, left := PushDigit(i, BytesValue(done), rest, v);
    MaskKeepsTheRest(i, buffer, rest, v);
    OneMoreDigit(i, |text|);
    if bits >= 2 {
      var b: byte := next / Power(bits - 2) % 256;
      assert (done + [b])[..|done|] == done;
    }
  }

  function SpareBits(digits: nat): nat {
    match digits % 4
    case 0 => 0
    case 1 => 6
    case 2 => 4
    case _ => 2
  }

  lemma OneMoreDigit(digits: nat, total: nat)
    requires digits < total
    ensures ByteCount(digits + 1) <= ByteCount(total)
    ensures digits % 4 == 0 ==> ByteCount(digits + 1) == ByteCount(digits) && SpareBits(digits + 1) == 6
    ensures digits % 4 != 0 ==>
      ByteCount(digits + 1) == ByteCount(digits) + 1 && SpareBits(digits + 1) == SpareBits(digits) - 2
  {
    var k, m := digits / 4, digits % 4;
    CountsByFours(k, m);
    if m == 3 {
      CountsByFours(k + 1, 0);
    } else {
      CountsByFours(k, m + 1);
    }
    CountsGrow(digits + 1, total);
  }

  lemma CountsGrow(a: nat, b: nat)
    requires a <= b
    ensures ByteCount(a) <= ByteCount(b)
  {
  }

  /** 2 to the power of a bit count the decoder can have. */
  function Power(bits: int): nat {
    match bits
    case 2 => 4
    case 4 => 16
    case 6 => 64
    case _ => 1
  }

  lemma MaskAfterNone(buffer: nat, v: sextet)
    ensures (buffer * 64 + v) % 0x1000000 % 64 == v
  {
    var x := buffer * 64 + v;
    assert x % 0x1000000 == 64 * (buffer - 262144 * (x / 0x1000000)) + v;
  }

  lemma MaskAfterOne(buffer: nat, v: sextet)
    ensures var next, low := (buffer * 64 + v) % 0x1000000, buffer % 64 * 64 + v;
      next % 16 == low % 16 && next / 16 % 256 == low / 16
  {
    var x, low, k := buffer * 64 + v, buffer % 64 * 64 + v, buffer / 64;
    var t := x / 0x1000000;
    assert x == 4096 * k + low;
    assert x % 0x1000000 == 4096 * (k - 4096 * t) + low;
    LowBits(16, k - 4096 * t, low);
  }

  lemma MaskAfterTwo(buffer: nat, v: sextet)
    ensures var next, low := (buffer * 64 + v) % 0x1000000, buffer % 16 * 64 + v;
      next % 4 == low % 4 && next / 4 % 256 == low / 4
  {
    var x, low, k := buffer * 64 + v, buffer % 16 * 64 + v, buffer / 16;
    var t := x / 0x1000000;
    assert x == 1024 * k + low;
    assert x % 0x1000000 == 1024 * (k - 16384 * t) + low;
    LowBits(4, k - 16384 * t, low);
  }

  lemma MaskAfterThree(buffer: nat, v: sextet)
    ensures var next, low := (buffer * 64 + v) % 0x1000000, buffer % 4 * 64 + v;
      next % 1 == low % 1 && next / 1 % 256 == low / 1
  {
    var x, low, k := buffer * 64 + v, buffer % 4 * 64 + v, buffer / 4;
    var t := x / 0x1000000;
    assert x == 256 * k + low;
    assert x % 0x1000000 == 256 * (k - 65536 * t) + low;
    LowBits(1, k - 65536 * t, low);
  }

  /** The 24-bit mask never cuts into the bits that are still to be written. */
  lemma MaskKeepsTheRest(digits: nat, buffer: nat, rest: nat, v: sextet)
    requires buffer < 0x1000000 && rest == buffer % Spare(digits)
    ensures var next := (buffer * 64 + v) % 0x1000000;
      && (digits % 4 == 0 ==> next % Spare(digits + 1) == v)
      && (digits % 4 != 0 ==>
        && next % Spare(digits + 1) == (rest * 64 + v) % Spare(digits + 1)
        && next / Spare(digits + 1) % 256 == (rest * 64 + v) / Spare(digits + 1))
  {
    SpareNext(digits);
    match digits % 4
    case 1 => MaskAfterOne(buffer, v);
    case 2 => MaskAfterTwo(buffer, v);
    case 3 => MaskAfterThree(buffer, v);
    case _ => MaskAfterNone(buffer, v);
  }

  lemma SpareNext(digits: nat)
    ensures Spare(digits + 1) == match digits % 4 case 0 => 64 case 1 => 16 case 2 => 4 case _ => 1
  {
    var k, m := digits / 4, digits % 4;
    By4(digits + 1, if m == 3 then k + 1 else k, if m == 3 then 0 else m + 1);
  }

  lemma LowBits(q: nat, high: int, low: nat)
    requires (q == 16 || q == 4 || q == 1) && low < 256 * q
    ensures (256 * q * high + low) / q % 256 == low / q
    ensures (256 * q * high + low) % q == low % q
  {
    var x, m := 256 * q * high + low, 256 * high + low / q;
    if q == 16 {
      assert x == 16 * m + low % 16;
    } else if q == 4 {
      assert x == 4 * m + low % 4;
    } else {
      assert x == m;
    }
  }

  lemma TrailingBits(x: nat, rest: nat, y: nat, digits: nat)
    requires 0 < rest < Spare(digits)
    ensures x * Spare(digits) + rest != y * Spare(digits)
  {
    var s := Spare(digits);
    if y > x {
      assert y * s == x * s + s + (y - x - 1) * s;
      assert (y - x - 1) * s >= 0;
    } else {
      assert x * s == y * s + (x - y) * s;
      assert (x - y) * s >= 0;
    }
  }

  lemma LengthsAgree(digits: nat)
    requires digits % 4 != 1
    ensures TextLength(ByteCount(digits)) == digits
  {
    var k, m := digits / 4, digits % 4;
    CountsByFours(k, m);
    CountsByThrees(k, if m == 3 then 2 else if m == 2 then 1 else 0);
  }
}

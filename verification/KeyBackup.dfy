/**
 * The person key backup record (`personKeyBackup.ts`): its binary layout, its text form, and the
 * reader that has to cope with any bytes at all.
 */
module KeyBackup {
  import opened Wrappers
  import Base64Url

  type byte = Base64Url.byte

  const FORMAT_VERSION := 1
  const UNLOCK_PASSPHRASE := 1
  const UNLOCK_PASSKEY := 2
  const RP_ID_HASH_LENGTH := 32
  const SALT_LENGTH := 16
  const NONCE_LENGTH := 12
  const PUBLIC_KEY_LENGTH := 32
  const CIPHERTEXT_LENGTH := 48
  const FIXED_LENGTH := SALT_LENGTH + NONCE_LENGTH + PUBLIC_KEY_LENGTH + CIPHERTEXT_LENGTH
  const MAX_CREDENTIAL_ID_LENGTH := 1023

  datatype Unlock =
    | Passphrase(memoryKiB: nat, iterations: nat, parallelism: nat)
    | Passkey(rpIdHash: seq<byte>, credentialId: seq<byte>)

  datatype Backup =
    Backup(version: nat, unlock: Unlock, salt: seq<byte>, nonce: seq<byte>, publicKey: seq<byte>, ciphertext: seq<byte>)

  datatype Problem = NotABackup | NewerVersion | Damaged | UnsupportedMethod

  datatype Parse = Ok(backup: Backup) | Bad(problem: Problem)

  /** The records the reader accepts. */
  predicate WellFormed(b: Backup) {
    && b.version == FORMAT_VERSION
    && |b.salt| == SALT_LENGTH && |b.nonce| == NONCE_LENGTH
    && |b.publicKey| == PUBLIC_KEY_LENGTH && |b.ciphertext| == CIPHERTEXT_LENGTH
    && match b.unlock
       case Passphrase(memoryKiB, iterations, parallelism) =>
         8 * 1024 <= memoryKiB <= 1024 * 1024 && 1 <= iterations < 256 && 1 <= parallelism < 256
       case Passkey(rpIdHash, credentialId) =>
         |rpIdHash| == RP_ID_HASH_LENGTH && 1 <= |credentialId| <= MAX_CREDENTIAL_ID_LENGTH
  }

  function U16(value: nat): (r: seq<byte>)
    ensures |r| == 2
  {
    [value / 256 % 256, value % 256]
  }

  function U32(value: nat): (r: seq<byte>)
    ensures |r| == 4
  {
    [value / 16777216 % 256, value / 65536 % 256, value / 256 % 256, value % 256]
  }

  function ReadU16(b: seq<byte>): nat
    requires |b| == 2
  {
    var high: int, low: int := b[0], b[1];
    high * 256 + low
  }

  function ReadU32(b: seq<byte>): nat
    requires |b| == 4
  {
    var b0: int, b1: int, b2: int, b3: int := b[0], b[1], b[2], b[3];
    b0 * 16777216 + b1 * 65536 + b2 * 256 + b3
  }

  lemma ReadsBack16(v: nat)
    requires v < 65536
    ensures ReadU16(U16(v)) == v
  {
  }

  lemma WritesBack16(b: seq<byte>)
    requires |b| == 2
    ensures U16(ReadU16(b)) == b
  {
  }

  lemma ReadsBack32(v: nat)
    requires v < 4294967296
    ensures ReadU32(U32(v)) == v
  {
    var a, b, c := v / 256, v / 65536, v / 16777216;
    assert a / 256 == b && b / 256 == c && c < 256;
    assert v == a * 256 + v % 256 && a == b * 256 + a % 256 && b == c * 256 + b % 256;
  }

  lemma LastByte(high: nat, low: nat)
    requires low < 256
    ensures (high * 256 + low) / 256 == high && (high * 256 + low) % 256 == low
  {
  }

  lemma DivideAgain(v: nat)
    ensures v / 65536 == v / 256 / 256 && v / 16777216 == v / 65536 / 256
  {
  }

  lemma WritesBack32(b: seq<byte>)
    requires |b| == 4
    ensures U32(ReadU32(b)) == b
  {
    var b0: int, b1: int, b2: int, b3: int := b[0], b[1], b[2], b[3];
    var v := ReadU32(b);
    assert v == ((b0 * 256 + b1) * 256 + b2) * 256 + b3;
    LastByte((b0 * 256 + b1) * 256 + b2, b3);
    LastByte(b0 * 256 + b1, b2);
    LastByte(b0, b1);
    DivideAgain(v);
  }

  /** The unlock method and its parameters. */
  function UnlockBytes(u: Unlock): seq<byte> {
    match u
    case Passphrase(memoryKiB, iterations, parallelism) =>
      [UNLOCK_PASSPHRASE] + U32(memoryKiB) + [iterations % 256, parallelism % 256]
    case Passkey(rpIdHash, credentialId) =>
      [UNLOCK_PASSKEY] + rpIdHash + U16(|credentialId|) + credentialId
  }

  /** `encodeHeader`: everything but the ciphertext. */
  function Header(b: Backup): seq<byte> {
    [b.version % 256] + UnlockBytes(b.unlock) + b.salt + b.nonce + b.publicKey
  }

  function Encode(b: Backup): seq<byte> {
    Header(b) + b.ciphertext
  }

  /** Why bytes that are no record are refused. The version comes first, then the method. */
  function ProblemOf(bytes: seq<byte>): Problem {
    if |bytes| < 2 then Damaged
    else if bytes[0] != FORMAT_VERSION then NewerVersion
    else if bytes[1] == UNLOCK_PASSPHRASE then
      if |bytes| != 2 + 6 + FIXED_LENGTH then Damaged else UnsupportedMethod
    else if bytes[1] == UNLOCK_PASSKEY then Damaged
    else UnsupportedMethod
  }

  /** What any bytes are read as: the record they encode, or why there is none. */
  ghost function Decode(bytes: seq<byte>): (r: Parse)
    ensures r.Ok? ==> WellFormed(r.backup) && Encode(r.backup) == bytes
  {
    if b :| WellFormed(b) && Encode(b) == bytes then Ok(b) else Bad(ProblemOf(bytes))
  }

  // ---- The layout ----

  /** The parts that are the same in every record, from `at` on. */
  ghost predicate Tail(b: Backup, bytes: seq<byte>, at: nat) {
    && |bytes| == at + FIXED_LENGTH
    && bytes[at..at + 16] == b.salt && bytes[at + 16..at + 28] == b.nonce
    && bytes[at + 28..at + 60] == b.publicKey && bytes[at + 60..at + 108] == b.ciphertext
  }

  lemma TailOf(b: Backup, head: seq<byte>)
    requires |b.salt| == 16 && |b.nonce| == 12 && |b.publicKey| == 32 && |b.ciphertext| == 48
    ensures Tail(b, head + b.salt + b.nonce + b.publicKey + b.ciphertext, |head|)
  {
  }

  lemma TailRebuilds(b: Backup, bytes: seq<byte>, at: nat)
    requires Tail(b, bytes, at)
    ensures bytes == bytes[..at] + b.salt + b.nonce + b.publicKey + b.ciphertext
  {
  }

  /** Where each field of a passphrase record is. */
  lemma PassphraseLayout(b: Backup)
    requires WellFormed(b) && b.unlock.Passphrase?
    ensures var e, u := Encode(b), b.unlock;
      && Tail(b, e, 8) && e[0] == FORMAT_VERSION && e[1] == UNLOCK_PASSPHRASE
      && e[2..6] == U32(u.memoryKiB) && ReadU32(e[2..6]) == u.memoryKiB && e[6] == u.iterations && e[7] == u.parallelism
      && ((e[2] as int * 256 + e[3]) * 256 + e[4]) * 256 + e[5] == u.memoryKiB
  {
    var u := b.unlock;
    var head: seq<byte> := [b.version % 256] + UnlockBytes(u);
    TailOf(b, head);
    ReadsBack32(u.memoryKiB);
    var e := Encode(b);
    assert e[..8] == head;
    assert e[2..6] == head[2..6] == U32(u.memoryKiB);
    assert e[6] == head[6] && e[7] == head[7];
  }

  /** Where each field of a passkey record is. */
  lemma PasskeyLayout(b: Backup)
    requires WellFormed(b) && b.unlock.Passkey?
    ensures var e, u, n := Encode(b), b.unlock, |b.unlock.credentialId|;
      && Tail(b, e, 36 + n) && e[0] == FORMAT_VERSION && e[1] == UNLOCK_PASSKEY
      && e[2..34] == u.rpIdHash && e[34..36] == U16(n) && ReadU16(e[34..36]) == n && e[36..36 + n] == u.credentialId
      && e[34] as int * 256 + e[35] == n
  {
    var u, n := b.unlock, |b.unlock.credentialId|;
    var head: seq<byte> := [b.version % 256] + UnlockBytes(u);
    TailOf(b, head);
    ReadsBack16(n);
    var e := Encode(b);
    assert e[..36 + n] == head;
    assert e[2..34] == head[2..34] == u.rpIdHash;
    assert e[34..36] == head[34..36] == U16(n);
    assert e[36..36 + n] == head[36..36 + n] == u.credentialId;
  }

  /** No two records share their bytes. */
  lemma EncodeIsOneToOne(a: Backup, b: Backup)
    requires WellFormed(a) && WellFormed(b) && Encode(a) == Encode(b)
    ensures a == b
  {
    if a.unlock.Passphrase? {
      PassphraseLayout(a);
    } else {
      PasskeyLayout(a);
    }
    if b.unlock.Passphrase? {
      PassphraseLayout(b);
    } else {
      PasskeyLayout(b);
    }
  }

  lemma DecodeIs(b: Backup)
    requires WellFormed(b)
    ensures Decode(Encode(b)) == Ok(b)
  {
    EncodeIsOneToOne(b, Decode(Encode(b)).backup);
  }

  /** `encodeBackup` fills a buffer with the header and then the ciphertext. */
  method EncodeBackup(b: Backup) returns (out: array<byte>)
    ensures out[..] == Encode(b)
  {
    var header := Header(b);
    out := new byte[|header| + |b.ciphertext|];
    for i := 0 to |header|
      invariant forall k :: 0 <= k < i ==> out[k] == header[k]
    {
      out[i] := header[i];
    }
    for i := 0 to |b.ciphertext|
      invariant forall k :: 0 <= k < |header| ==> out[k] == header[k]
      invariant forall k :: 0 <= k < i ==> out[|header| + k] == b.ciphertext[k]
    {
      out[|header| + i] := b.ciphertext[i];
    }
  }

  lemma PassphraseHead(bytes: seq<byte>, u: Unlock)
    requires |bytes| >= 8 && bytes[1] == UNLOCK_PASSPHRASE && u == Passphrase(ReadU32(bytes[2..6]), bytes[6], bytes[7])
    ensures bytes[..8] == [bytes[0]] + UnlockBytes(u)
  {
    WritesBack32(bytes[2..6]);
    assert bytes[..8] == [bytes[0], bytes[1]] + bytes[2..6] + [bytes[6], bytes[7]];
  }

  lemma PasskeyHead(bytes: seq<byte>, u: Unlock, n: nat)
    requires |bytes| >= 36 + n && bytes[1] == UNLOCK_PASSKEY && n == ReadU16(bytes[34..36])
    requires u == Passkey(bytes[2..34], bytes[36..36 + n])
    ensures bytes[..36 + n] == [bytes[0]] + UnlockBytes(u)
  {
    WritesBack16(bytes[34..36]);
    assert bytes[..36 + n] == [bytes[0], bytes[1]] + bytes[2..34] + bytes[34..36] + bytes[36..36 + n];
  }

  lemma ReadsAs(bytes: seq<byte>, b: Backup, at: nat)
    requires WellFormed(b) && Tail(b, bytes, at) && bytes[..at] == [b.version % 256] + UnlockBytes(b.unlock)
    ensures Decode(bytes) == Ok(b)
  {
    TailRebuilds(b, bytes, at);
    DecodeIs(b);
  }

  /** `decodeBackup`: a cursor over the bytes, the method before any length. */
  method DecodeBackup(bytes: seq<byte>) returns (r: Parse)
    ensures r == Decode(bytes)
  {
    if |bytes| < 2 {
      TooShort(bytes);
      return Bad(Damaged);
    }
    if bytes[0] != FORMAT_VERSION {
      NotThis(bytes);
      return Bad(NewerVersion);
    }
    var unlock: Unlock;
    var offset := 2;
    if bytes[1] == UNLOCK_PASSPHRASE {
      if |bytes| != 2 + 6 + FIXED_LENGTH {
        NotThis(bytes);
        return Bad(Damaged);
      }
      var memoryKiB := ReadU32(bytes[offset..offset + 4]);
      offset := offset + 4;
      var iterations, parallelism := bytes[offset], bytes[offset + 1];
      offset := offset + 2;
      if memoryKiB < 8 * 1024 || memoryKiB > 1024 * 1024 || iterations < 1 || parallelism < 1 {
        NotThis(bytes);
        return Bad(UnsupportedMethod);
      }
      unlock := Passphrase(memoryKiB, iterations, parallelism);
      PassphraseHead(bytes, unlock);
    } else if bytes[1] == UNLOCK_PASSKEY {
      if |bytes| < 2 + RP_ID_HASH_LENGTH + 2 {
        NotThis(bytes);
        return Bad(Damaged);
      }
      var rpIdHash := bytes[offset..offset + RP_ID_HASH_LENGTH];
      offset := offset + RP_ID_HASH_LENGTH;
      var n := ReadU16(bytes[offset..offset + 2]);
      offset := offset + 2;
      if n < 1 || n > MAX_CREDENTIAL_ID_LENGTH || |bytes| != 2 + RP_ID_HASH_LENGTH + 2 + n + FIXED_LENGTH {
        NotThis(bytes);
        return Bad(Damaged);
      }
      unlock := Passkey(rpIdHash, bytes[offset..offset + n]);
      offset := offset + n;
      PasskeyHead(bytes, unlock, n);
    } else {
      NotThis(bytes);
      return Bad(UnsupportedMethod);
    }
    var salt := bytes[offset..offset + SALT_LENGTH];
    offset := offset + SALT_LENGTH;
    var nonce := bytes[offset..offset + NONCE_LENGTH];
    offset := offset + NONCE_LENGTH;
    var publicKey := bytes[offset..offset + PUBLIC_KEY_LENGTH];
    offset := offset + PUBLIC_KEY_LENGTH;
    var ciphertext := bytes[offset..offset + CIPHERTEXT_LENGTH];
    var b := Backup(FORMAT_VERSION, unlock, salt, nonce, publicKey, ciphertext);
    ReadsAs(bytes, b, |bytes| - FIXED_LENGTH);
    r := Ok(b);
  }

  /** The tests of the reader, as conditions on the bytes. */
  predicate Readable(bytes: seq<byte>) {
    && |bytes| >= 2 && bytes[0] == FORMAT_VERSION
    && if bytes[1] == UNLOCK_PASSPHRASE then
         |bytes| == 2 + 6 + FIXED_LENGTH && 8 * 1024 <= ReadU32(bytes[2..6]) <= 1024 * 1024 && bytes[6] >= 1
           && bytes[7] >= 1
       else
         bytes[1] == UNLOCK_PASSKEY && |bytes| >= 36 && 1 <= ReadU16(bytes[34..36]) <= MAX_CREDENTIAL_ID_LENGTH
         && |bytes| == 36 + ReadU16(bytes[34..36]) + FIXED_LENGTH
  }

  /** Bytes that fail a test encode no record. */
  lemma NotThis(bytes: seq<byte>)
    requires !Readable(bytes)
    ensures Decode(bytes) == Bad(ProblemOf(bytes))
  {
    if Decode(bytes).Ok? {
      var b := Decode(bytes).backup;
      if b.unlock.Passphrase? {
        PassphraseLayout(b);
      } else {
        PasskeyLayout(b);
      }
    }
  }

  lemma TooShort(bytes: seq<byte>)
    requires |bytes| < 2
    ensures Decode(bytes) == Bad(Damaged)
  {
    NotThis(bytes);
  }

  /** The reader accepts exactly the bytes of some record. */
  lemma AcceptsIff(bytes: seq<byte>)
    ensures Decode(bytes).Ok? <==> Readable(bytes)
  {
    if Readable(bytes) {
      RecordOf(bytes);
    } else {
      NotThis(bytes);
    }
  }

  /** Which reason bytes that encode no record are refused with. */
  lemma WhyRefused(bytes: seq<byte>)
    ensures Decode(bytes) == Bad(NewerVersion) <==> |bytes| >= 2 && bytes[0] != FORMAT_VERSION
    ensures Decode(bytes) == Bad(UnsupportedMethod)
      <==> |bytes| >= 2 && bytes[0] == FORMAT_VERSION && UnknownUnlock(bytes)
    ensures Decode(bytes) == Bad(Damaged) <==>
      && !Readable(bytes)
      && (|bytes| >= 2 ==> bytes[0] == FORMAT_VERSION && !UnknownUnlock(bytes))
    ensures Decode(bytes) != Bad(NotABackup)
  {
    AcceptsIff(bytes);
    if !Readable(bytes) {
      NotThis(bytes);
    }
  }

  /** A method this reader does not know, or a whole passphrase record with settings it does not take. */
  predicate UnknownUnlock(bytes: seq<byte>)
    requires |bytes| >= 2
  {
    || (bytes[1] != UNLOCK_PASSPHRASE && bytes[1] != UNLOCK_PASSKEY)
    || (bytes[1] == UNLOCK_PASSPHRASE && |bytes| == 8 + FIXED_LENGTH
      && !(8 * 1024 <= ReadU32(bytes[2..6]) <= 1024 * 1024 && bytes[6] >= 1 && bytes[7] >= 1))
  }

  lemma RecordOf(bytes: seq<byte>)
    requires Readable(bytes)
    ensures Decode(bytes).Ok?
  {
    var at := |bytes| - FIXED_LENGTH;
    var unlock :=
      if bytes[1] == UNLOCK_PASSPHRASE then Passphrase(ReadU32(bytes[2..6]), bytes[6], bytes[7])
      else Passkey(bytes[2..34], bytes[36..at]);
    var b := Backup(1, unlock, bytes[at..at + 16], bytes[at + 16..at + 28], bytes[at + 28..at + 60], bytes[at + 60..]);
    if bytes[1] == UNLOCK_PASSPHRASE {
      WritesBack32(bytes[2..6]);
    } else {
      WritesBack16(bytes[34..36]);
    }
    assert bytes[..at] == [bytes[0]] + UnlockBytes(unlock);
    TailRebuilds(b, bytes, at);
    DecodeIs(b);
  }

  // ---- The text form ----

  const PREFIX: string := "TPK1."
  const FILE_FORMAT: string := "tapes-person-key-backup"

  /** `backupToText`. */
  function ToText(b: Backup): string {
    PREFIX + Base64Url.Encode(Encode(b))
  }

  /** `parseCompact`, against the two decoders' specifications. */
  ghost function ParseCompact(text: string): Parse {
    if !("TPK" <= text) then Bad(NotABackup)
    else if !(PREFIX <= text) then Bad(NewerVersion)
    else
      match Base64Url.Decode(text[|PREFIX|..])
      case None => Bad(Damaged)
      case Some(bytes) => Decode(bytes)
  }

  /** What `trim` takes for white space or a line end. */
  predicate IsSpace(c: char) {
    var u := c as int;
    9 <= u <= 13 || u == 32 || u == 0xa0 || u == 0x1680 || 0x2000 <= u <= 0x200a || u == 0x2028 || u == 0x2029
    || u == 0x202f || u == 0x205f || u == 0x3000 || u == 0xfeff
  }

  function TrimStart(t: string): string {
    if t != "" && IsSpace(t[0]) then TrimStart(t[1..]) else t
  }

  function TrimEnd(t: string): string {
    if t != "" && IsSpace(t[|t| - 1]) then TrimEnd(t[..|t| - 1]) else t
  }

  function Trim(t: string): string {
    TrimEnd(TrimStart(t))
  }

  predicate Blank(t: string) {
    forall i :: 0 <= i < |t| ==> IsSpace(t[i])
  }

  /** The two fields of the file's object that are read; `None` for one that is not a string. */
  datatype File = File(format: Option<string>, backup: Option<string>)

  /** `parseBackupText`. `json` is `JSON.parse`, `None` where it throws. */
  ghost function ParseBackupText(json: string -> Option<File>, text: string): Parse {
    var trimmed := Trim(text);
    if !("{" <= trimmed) then ParseCompact(trimmed)
    else
      match json(trimmed)
      case None => Bad(NotABackup)
      case Some(file) =>
        if file.format != Some(FILE_FORMAT) then Bad(NotABackup)
        else if file.backup.None? then Bad(Damaged)
        else ParseCompact(Trim(file.backup.value))
  }

  /** `parseCompact` with the decoders that run. */
  method ReadCompact(text: string) returns (r: Parse)
    ensures r == ParseCompact(text)
  {
    if !("TPK" <= text) {
      return Bad(NotABackup);
    }
    if !(PREFIX <= text) {
      return Bad(NewerVersion);
    }
    var bytes := Base64Url.FromBase64Url(text[|PREFIX|..]);
    if bytes.None? {
      return Bad(Damaged);
    }
    r := DecodeBackup(bytes.value);
  }

  lemma {:induction false} TrimStartBlank(before: string, t: string)
    requires Blank(before) && t != "" && !IsSpace(t[0])
    ensures TrimStart(before + t) == t
  {
    if before == "" {
      assert before + t == t;
    } else {
      assert (before + t)[1..] == before[1..] + t;
      TrimStartBlank(before[1..], t);
    }
  }

  lemma {:induction false} TrimEndBlank(t: string, after: string)
    requires Blank(after) && t != "" && !IsSpace(t[|t| - 1])
    ensures TrimEnd(t + after) == t
  {
    if after == "" {
      assert t + after == t;
    } else {
      var n := |after| - 1;
      assert (t + after)[..|t + after| - 1] == t + after[..n];
      TrimEndBlank(t, after[..n]);
    }
  }

  lemma TrimBlanks(before: string, t: string, after: string)
    requires Blank(before) && Blank(after) && t != "" && !IsSpace(t[0]) && !IsSpace(t[|t| - 1])
    ensures Trim(before + t + after) == t
  {
    assert before + t + after == before + (t + after);
    TrimStartBlank(before, t + after);
    TrimEndBlank(t, after);
  }

  /** The text has no white space at either end. */
  lemma TextEnds(b: Backup)
    ensures var t := ToText(b); t != "" && t[0] == 'T' && !IsSpace(t[|t| - 1]) && PREFIX <= t
  {
    var digits, t := Base64Url.Encode(Encode(b)), ToText(b);
    if digits != "" {
      assert t[|t| - 1] == digits[|digits| - 1] && Base64Url.Place(digits[|digits| - 1]) >= 0;
    }
  }

  /** Reading the text of a record gives the record, and no other text does. */
  lemma CompactRoundTrip(b: Backup, text: string)
    requires WellFormed(b)
    ensures ParseCompact(text) == Ok(b) <==> text == ToText(b)
  {
    var digits := Base64Url.Encode(Encode(b));
    Base64Url.DecodeEncode(Encode(b));
    DecodeIs(b);
    TextEnds(b);
    assert ToText(b)[|PREFIX|..] == digits;
    assert "TPK" <= ToText(b) by {
      assert "TPK" == PREFIX[..3];
    }
    if ParseCompact(text) == Ok(b) {
      Base64Url.EncodeDecode(text[|PREFIX|..]);
      assert text == PREFIX + text[|PREFIX|..];
    }
  }

  /** Which reason a text that is no record is refused with. */
  lemma WhyTextIsRefused(text: string)
    ensures ParseCompact(text) == Bad(NotABackup) <==> !("TPK" <= text)
    ensures PREFIX <= text ==>
      var bytes := Base64Url.Decode(text[|PREFIX|..]);
      ParseCompact(text) == if bytes.None? then Bad(Damaged) else Decode(bytes.value)
    ensures "TPK" <= text && !(PREFIX <= text) ==> ParseCompact(text) == Bad(NewerVersion)
  {
    assert "TPK" == PREFIX[..3];
    if PREFIX <= text {
      assert "TPK" <= text;
      match Base64Url.Decode(text[|PREFIX|..])
      case None =>
      case Some(bytes) => WhyRefused(bytes);
    }
  }

  /** The text form survives white space around it. */
  lemma TextRoundTrip(json: string -> Option<File>, b: Backup, before: string, after: string)
    requires WellFormed(b) && Blank(before) && Blank(after)
    ensures ParseBackupText(json, before + ToText(b) + after) == Ok(b)
  {
    TextEnds(b);
    TrimBlanks(before, ToText(b), after);
    CompactRoundTrip(b, ToText(b));
  }

  /** So does the file form, where its JSON gives back the text it was made with. */
  lemma FileReads(json: string -> Option<File>, b: Backup, file: string)
    requires WellFormed(b) && "{" <= Trim(file)
    requires json(Trim(file)) == Some(File(Some(FILE_FORMAT), Some(ToText(b))))
    ensures ParseBackupText(json, file) == Ok(b)
  {
    TextEnds(b);
    TrimBlanks("", ToText(b), "");
    assert "" + ToText(b) + "" == ToText(b);
    CompactRoundTrip(b, ToText(b));
  }
}

/**
 * A host taking signed statements at `/blobs` (`statementUpload.ts`, over the map-like part of
 * `blobStore.ts`): what it accepts, and what it holds afterwards.
 */
module StatementHost {
  import opened Wrappers
  import opened Statements

  const MAX_STATEMENT_BYTES := 64 * 1024

  datatype Mime = AudioMime | StatementMime
  datatype Stored = Stored(bytes: Bytes, mime: Mime)
  type Store = map<Hash, Stored>

  /** Objects are filed under the hash of their bytes. */
  ghost predicate Filed(c: Crypto, store: Store) {
    forall h :: h in store ==> c.hash(store[h].bytes) == h
  }

  /** `ingestStream`: bytes that are already there keep their first label. */
  function Ingest(c: Crypto, store: Store, bytes: Bytes, mime: Mime): Store {
    var h := c.hash(bytes);
    if h in store then store else store[h := Stored(bytes, mime)]
  }

  /** `storedClaim`: something labelled a statement, whose type is a claim. */
  function StoredClaim(c: Crypto, store: Store, address: Hash): Option<Payload> {
    if address !in store || store[address].mime != StatementMime then None
    else
      match c.parse(store[address].bytes)
      case None => None
      case Some(s) => if KindOf(s.payload) == Some(AClaim) then Some(s.payload) else None
  }

  /** `storedLink`: a certificate or vouch labelled a statement, which verifies. */
  function StoredLink(c: Crypto, store: Store, address: Hash): (r: Option<Payload>)
    ensures r.Some? ==> IsLink(r.value)
  {
    if address !in store || store[address].mime != StatementMime then None
    else
      match c.parse(store[address].bytes)
      case None => None
      case Some(s) => if IsLink(s.payload) && SignatureProblem(c, s) == None then Some(s.payload) else None
  }

  /** `checkClaim`: the audio must be here, whatever it is labelled. */
  function CheckClaim(c: Crypto, store: Store, s: Signed): Option<Problem>
    requires KindOf(s.payload) == Some(AClaim)
  {
    var hash := if s.payload.Claim? then Some(s.payload.blobHash) else s.payload.blob;
    if hash.None? || hash.value !in store then Some(AudioMissing)
    else ClaimProblem(c, s, Audio(hash.value, |store[hash.value].bytes|))
  }

  /** `checkDeviceLinkUpload`: the claim named by `?for=` must name this link, for its device key. */
  function CheckLink(c: Crypto, store: Store, s: Signed, address: Hash, forClaim: Option<Hash>): Option<Problem> {
    match SignatureProblem(c, s)
    case Some(p) => Some(p)
    case None =>
      var claim := if forClaim.Some? then StoredClaim(c, store, forClaim.value) else None;
      if claim.None? then Some(ClaimMissing)
      else if claim.value.Claim? && IsLink(s.payload) && claim.value.deviceCert == Some(address)
        && claim.value.deviceKey == s.payload.deviceKey then None
      else Some(CertificateMismatch)
  }

  /** `checkReceipt`, `checkSession` and `checkRevocationUpload`. */
  function CheckDependent(c: Crypto, store: Store, s: Signed): Option<Problem> {
    match SignatureProblem(c, s)
    case Some(p) => Some(p)
    case None =>
      var p := s.payload;
      if p.Receipt? then (if StoredClaim(c, store, p.claim).Some? then None else Some(ClaimMissing))
      else if p.Session? then
        if exists i :: 0 <= i < |p.claims| && StoredClaim(c, store, p.claims[i]).Some? then None else Some(ClaimMissing)
      else if p.Revocation? then
        match StoredLink(c, store, p.deviceLink)
        case None => Some(CertificateMissing)
        case Some(link) => if RevocationCovers(p, link, p.deviceLink) then None else Some(RevocationNotPermitted)
      else Some(Malformed)
  }

  /** `checkUploadedStatement`. */
  function CheckUpload(c: Crypto, store: Store, bytes: Bytes, forClaim: Option<Hash>): Option<Problem> {
    match c.parse(bytes)
    case None => Some(Malformed)
    case Some(s) =>
      if c.write(s).None? then Some(Malformed)
      else if c.write(s).value != bytes then Some(NotCanonical)
      else
        match KindOf(s.payload)
        case None => Some(UnknownType)
        case Some(AClaim) => CheckClaim(c, store, s)
        case Some(ALink) => CheckLink(c, store, s, c.hash(bytes), forClaim)
        case Some(_) => CheckDependent(c, store, s)
  }

  /** One upload: a statement's bytes, and the claim address that goes with a link. */
  datatype Sent = Sent(bytes: Bytes, forClaim: Option<Hash>)

  predicate Accepts(c: Crypto, store: Store, x: Sent) {
    |x.bytes| <= MAX_STATEMENT_BYTES && CheckUpload(c, store, x.bytes, x.forClaim) == None
  }

  function Upload(c: Crypto, store: Store, x: Sent): Store {
    if Accepts(c, store, x) then Ingest(c, store, x.bytes, StatementMime) else store
  }

  function UploadAll(c: Crypto, store: Store, sent: seq<Sent>): Store {
    if sent == [] then store else Upload(c, UploadAll(c, store, sent[..|sent| - 1]), sent[|sent| - 1])
  }

  function RankOf(p: Payload): nat {
    match KindOf(p)
    case Some(AClaim) => 0
    case Some(ALink) => 1
    case Some(ARevocation) => 3
    case _ => 2
  }

  /** `rank`, from what the bytes parse to. */
  function Rank(c: Crypto, bytes: Bytes): nat {
    match c.parse(bytes)
    case None => 2
    case Some(s) => RankOf(s.payload)
  }

  predicate Ranked(c: Crypto, sent: seq<Sent>) {
    forall i, j :: 0 <= i < j < |sent| ==> Rank(c, sent[i].bytes) <= Rank(c, sent[j].bytes)
  }

  // ---- What uploading keeps ----

  ghost predicate SubStore(a: Store, b: Store) {
    forall h :: h in a ==> h in b && a[h] == b[h]
  }

  lemma UploadKeeps(c: Crypto, store: Store, x: Sent)
    requires Filed(c, store)
    ensures Filed(c, Upload(c, store, x)) && SubStore(store, Upload(c, store, x))
  {
  }

  lemma {:induction false} UploadAllKeeps(c: Crypto, store: Store, sent: seq<Sent>, i: nat)
    requires Filed(c, store) && i <= |sent|
    ensures Filed(c, UploadAll(c, store, sent))
    ensures SubStore(store, UploadAll(c, store, sent[..i]))
    ensures SubStore(UploadAll(c, store, sent[..i]), UploadAll(c, store, sent))
    decreases |sent|
  {
    if sent == [] {
    } else if i == |sent| {
      assert sent[..i] == sent;
      UploadAllKeeps(c, store, sent[..i - 1], i - 1);
      assert sent[..i - 1][..i - 1] == sent[..i - 1];
      UploadKeeps(c, UploadAll(c, store, sent[..i - 1]), sent[i - 1]);
    } else {
      var n := |sent| - 1;
      UploadAllKeeps(c, store, sent[..n], i);
      assert sent[..n][..i] == sent[..i];
      UploadKeeps(c, UploadAll(c, store, sent[..n]), sent[n]);
    }
  }

  /** What is held at the end and not after the first `k` uploads came from a later one. */
  lemma {:induction false} CameLater(c: Crypto, store: Store, sent: seq<Sent>, k: nat, h: Hash)
    requires k <= |sent| && h in UploadAll(c, store, sent) && h !in UploadAll(c, store, sent[..k])
    ensures exists j :: k <= j < |sent| && c.hash(sent[j].bytes) == h
              && UploadAll(c, store, sent)[h] == Stored(sent[j].bytes, StatementMime)
    decreases |sent|
  {
    assert sent[..|sent|] == sent;
    var n := |sent| - 1;
    if h in UploadAll(c, store, sent[..n]) {
      assert sent[..n][..k] == sent[..k];
      CameLater(c, store, sent[..n], k, h);
    } else {
      assert c.hash(sent[n].bytes) == h;
    }
  }

  /** A host that holds more accepts no less. */
  lemma AcceptsIsMonotone(c: Crypto, a: Store, b: Store, x: Sent)
    requires SubStore(a, b) && Accepts(c, a, x)
    ensures Accepts(c, b, x)
  {
    var s := c.parse(x.bytes).value;
    if s.payload.Session? {
      var i :| 0 <= i < |s.payload.claims| && StoredClaim(c, a, s.payload.claims[i]).Some?;
      assert StoredClaim(c, b, s.payload.claims[i]).Some?;
    }
  }

  // ---- What is held was checked ----

  /** The claim is signed and describes an object the host holds. */
  ghost predicate ClaimStands(c: Crypto, store: Store, s: Signed) {
    && s.payload.Claim? && c.verify(s, s.payload.deviceKey)
    && s.payload.blobHash in store && |store[s.payload.blobHash].bytes| == s.payload.size
  }

  /** The statement is signed by the key it names and bound to something the host holds. */
  ghost predicate Stands(c: Crypto, store: Store, h: Hash, s: Signed) {
    var p := s.payload;
    if p.Claim? then ClaimStands(c, store, s)
    else
      && SignerOf(p).Some? && c.verify(s, SignerOf(p).value)
      && (p.Receipt? ==> StoredClaim(c, store, p.claim).Some?)
      && (p.Session? ==> exists claim :: claim in p.claims && StoredClaim(c, store, claim).Some?)
      && (IsLink(p) ==> exists claim :: Names(c, store, claim, h, p.deviceKey))
      && (p.Revocation? ==>
        exists link :: HoldsLink(c, store, p.deviceLink, link) && RevocationCovers(p, link, p.deviceLink))
  }

  /** What is held under an address, labelled a statement, is a certificate or vouch with a good signature. */
  ghost predicate HoldsLink(c: Crypto, store: Store, address: Hash, link: Payload) {
    && IsLink(link) && address in store && store[address].mime == StatementMime
    && c.parse(store[address].bytes).Some?
    && var s := c.parse(store[address].bytes).value;
    s.payload == link && c.verify(s, if link.Vouch? then link.hostKey else link.personKey)
  }

  /** A held claim of the device names the link. */
  ghost predicate Names(c: Crypto, store: Store, claim: Hash, link: Hash, deviceKey: Key) {
    var p := StoredClaim(c, store, claim);
    p.Some? && p.value.Claim? && p.value.deviceCert == Some(link) && p.value.deviceKey == deviceKey
  }

  /** Only checked statements are labelled as statements, each the canonical text of its address. */
  ghost predicate Checked(c: Crypto, store: Store) {
    forall h :: h in store && store[h].mime == StatementMime ==>
      exists s :: c.write(s) == Some(store[h].bytes) && c.parse(store[h].bytes) == Some(s) && Stands(c, store, h, s)
  }

  /** Holding more takes nothing back. */
  lemma StandsIsMonotone(c: Crypto, a: Store, b: Store, h: Hash, s: Signed)
    requires SubStore(a, b) && Stands(c, a, h, s)
    ensures Stands(c, b, h, s)
  {
    var p := s.payload;
    if p.Session? {
      var claim :| claim in p.claims && StoredClaim(c, a, claim).Some?;
      assert StoredClaim(c, b, claim).Some?;
    } else if IsLink(p) {
      var claim :| Names(c, a, claim, h, p.deviceKey);
      assert Names(c, b, claim, h, p.deviceKey);
    }
  }

  /** Canonical bytes of a statement that stands, a link by the claim sent with it. */
  ghost predicate IsFit(c: Crypto, store: Store, x: Sent, s: Signed) {
    && c.write(s) == Some(x.bytes) && c.parse(x.bytes) == Some(s) && Stands(c, store, c.hash(x.bytes), s)
    && (IsLink(s.payload) ==>
      x.forClaim.Some? && Names(c, store, x.forClaim.value, c.hash(x.bytes), s.payload.deviceKey))
  }

  /** Which refusal a statement gets whose signature stands and which the host cannot bind to what it holds. */
  lemma RefusalIs(c: Crypto, store: Store, x: Sent, s: Signed)
    requires c.parse(x.bytes) == Some(s) && c.write(s) == Some(x.bytes)
    ensures var refusal, p := CheckUpload(c, store, x.bytes, x.forClaim), s.payload;
      && (refusal == Some(UnknownType) <==> p.Other?)
      && (p.Claim? && p.blobHash !in store ==> refusal == Some(AudioMissing))
      && (p.Claim? && p.blobHash in store && |store[p.blobHash].bytes| != p.size ==> refusal == Some(SizeMismatch))
      && (p.Claim? && p.blobHash in store && |store[p.blobHash].bytes| == p.size && !c.verify(s, p.deviceKey) ==>
        refusal == Some(BadSignature))
      && (SignerOf(p).Some? && !c.verify(s, SignerOf(p).value) ==> refusal == Some(BadSignature))
    ensures var refusal, p := CheckUpload(c, store, x.bytes, x.forClaim), s.payload;
      SignerOf(p).Some? && c.verify(s, SignerOf(p).value) ==>
        && (p.Receipt? && StoredClaim(c, store, p.claim).None? ==> refusal == Some(ClaimMissing))
        && (p.Session? && (forall claim :: claim in p.claims ==> StoredClaim(c, store, claim).None?) ==>
          refusal == Some(ClaimMissing))
        && (p.Revocation? && StoredLink(c, store, p.deviceLink).None? ==> refusal == Some(CertificateMissing))
        && (IsLink(p) && (x.forClaim.None? || StoredClaim(c, store, x.forClaim.value).None?) ==>
          refusal == Some(ClaimMissing))
        && (IsLink(p) && x.forClaim.Some? && StoredClaim(c, store, x.forClaim.value).Some? ==>
          var fits := Names(c, store, x.forClaim.value, c.hash(x.bytes), p.deviceKey);
          refusal == if fits then None else Some(CertificateMismatch))
  {
  }

  /** The host takes a statement exactly when it is small enough and fit. */
  lemma AcceptsIff(c: Crypto, store: Store, x: Sent)
    requires Filed(c, store)
    ensures Accepts(c, store, x) <==> |x.bytes| <= MAX_STATEMENT_BYTES && exists s :: IsFit(c, store, x, s)
  {
    if c.parse(x.bytes).Some? {
      var s := c.parse(x.bytes).value;
      if c.write(s) == Some(x.bytes) {
        CheckIsFit(c, store, x, s);
      }
    }
  }

  lemma CheckIsFit(c: Crypto, store: Store, x: Sent, s: Signed)
    requires Filed(c, store) && c.parse(x.bytes) == Some(s) && c.write(s) == Some(x.bytes)
    ensures CheckUpload(c, store, x.bytes, x.forClaim) == None <==> IsFit(c, store, x, s)
  {
    var p := s.payload;
    if p.Session? {
      if claim :| claim in p.claims && StoredClaim(c, store, claim).Some? {
        var i :| 0 <= i < |p.claims| && p.claims[i] == claim;
        assert StoredClaim(c, store, p.claims[i]).Some?;
      }
      if i :| 0 <= i < |p.claims| && StoredClaim(c, store, p.claims[i]).Some? {
        assert p.claims[i] in p.claims;
      }
    } else if IsLink(p) && x.forClaim.Some? {
      assert IsFit(c, store, x, s) <==>
        c.verify(s, SignerOf(p).value) && Names(c, store, x.forClaim.value, c.hash(x.bytes), p.deviceKey);
    }
  }

  /** Every upload, taken or refused, keeps it that way. */
  lemma UploadKeepsChecked(c: Crypto, store: Store, x: Sent)
    requires Sound(c) && Filed(c, store) && Checked(c, store)
    ensures Checked(c, Upload(c, store, x))
  {
    var after := Upload(c, store, x);
    UploadKeeps(c, store, x);
    forall h | h in after && after[h].mime == StatementMime
      ensures exists s :: c.write(s) == Some(after[h].bytes) && c.parse(after[h].bytes) == Some(s)
                && Stands(c, after, h, s)
    {
      if h in store {
        var s :| c.write(s) == Some(store[h].bytes) && c.parse(store[h].bytes) == Some(s) && Stands(c, store, h, s);
        StandsIsMonotone(c, store, after, h, s);
      } else {
        AcceptsIff(c, store, x);
        var s :| IsFit(c, store, x, s);
        StandsIsMonotone(c, store, after, h, s);
      }
    }
  }

  /** After any uploads, all that is labelled a statement was checked and is bound to what is held. */
  lemma {:induction false} UploadAllKeepsChecked(c: Crypto, store: Store, sent: seq<Sent>)
    requires Sound(c) && Filed(c, store) && Checked(c, store)
    ensures Checked(c, UploadAll(c, store, sent))
  {
    if sent != [] {
      var n := |sent| - 1;
      UploadAllKeepsChecked(c, store, sent[..n]);
      UploadAllKeeps(c, store, sent[..n], n);
      UploadKeepsChecked(c, UploadAll(c, store, sent[..n]), sent[n]);
    }
  }
}

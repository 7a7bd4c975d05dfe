/**
 * What a reader may rely on: the answer does not depend on list order, `verified` means every
 * statement is bound to the recording, and a permitted revocation annotates and never cancels.
 */
module ReaderTheorems {
  import opened Wrappers
  import opened Statements
  import opened Reader
  import opened RecordingReader

  // ---- Order ----

  lemma {:induction false} UniqueOfDistinct(list: seq<Entry>)
    requires Distinct(list)
    ensures Unique(list) == list
  {
    if list != [] {
      UniqueOfDistinct(list[..|list| - 1]);
      PutAppends(list[..|list| - 1], list[|list| - 1]);
      assert list == list[..|list| - 1] + [list[|list| - 1]];
    }
  }

  lemma {:induction false} PutAppends(u: seq<Entry>, e: Entry)
    requires forall i :: 0 <= i < |u| ==> u[i].hash != e.hash
    ensures Put(u, e) == u + [e]
  {
    if u != [] {
      PutAppends(u[1..], e);
      assert u == [u[0]] + u[1..];
    }
  }

  lemma SameMap(a: seq<Entry>, b: seq<Entry>)
    requires Distinct(a) && Distinct(b) && forall e :: e in a <==> e in b
    ensures AsMap(a) == AsMap(b)
  {
    UniqueRepresents(a);
    UniqueRepresents(b);
    UniqueOfDistinct(a);
    UniqueOfDistinct(b);
    forall h: Hash
      ensures h in AsMap(a) <==> h in AsMap(b)
      ensures h in AsMap(a) ==> AsMap(a)[h] == AsMap(b)[h]
    {
      if h in AsMap(a) {
        assert Entry(h, AsMap(a)[h]) in b;
      }
      if h in AsMap(b) {
        assert Entry(h, AsMap(b)[h]) in a;
      }
    }
  }

  /** Any order of the same statements gives the same state, failures, missing addresses and arrival time. */
  lemma OrderIndependence(c: Crypto, audio: Audio, a: seq<Entry>, b: seq<Entry>, r: Provenance, s: Provenance)
    requires Distinct(a) && Distinct(b) && forall e :: e in a <==> e in b
    requires Represents(Unique(a), AsMap(a)) && Reads(Listing(c, audio, AsMap(a)), Unique(a), r)
    requires Represents(Unique(b), AsMap(b)) && Reads(Listing(c, audio, AsMap(b)), Unique(b), s)
    ensures (r.Verified? <==> s.Verified?) && (r.DeviceOnly? <==> s.DeviceOnly?) && (r.Unverified? <==> s.Unverified?)
    ensures r.Failed? <==> s.Failed?
    ensures r.Failed? ==> multiset(r.failures) == multiset(s.failures)
    ensures r.Unavailable? <==> s.Unavailable?
    ensures r.Unavailable? ==> forall h :: h in r.missing <==> h in s.missing
    ensures r.Verified? ==> c.time(r.receivedAt) == c.time(s.receivedAt)
  {
    SameMap(a, b);
    var l := Listing(c, audio, AsMap(a));
    StateIs(l, Unique(a), r);
    StateIs(l, Unique(b), s);
    SameDetails(l, Unique(a), r, Unique(b), s);
  }

  lemma SameDetails(l: Listing, u: seq<Entry>, r: Provenance, v: seq<Entry>, s: Provenance)
    requires Represents(u, l.held) && Represents(v, l.held) && Reads(l, u, r) && Reads(l, v, s)
    ensures r.Failed? && s.Failed? ==> multiset(r.failures) == multiset(s.failures)
    ensures r.Unavailable? && s.Unavailable? ==> forall h :: h in r.missing <==> h in s.missing
    ensures r.Verified? && s.Verified? ==> l.crypto.time(r.receivedAt) == l.crypto.time(s.receivedAt)
  {
    if r.Failed? && s.Failed? {
      SameReports(l, r.failures, s.failures, l.held.Keys);
    } else if r.Verified? && s.Verified? {
      EarliestReceipt(l, u, r);
      EarliestReceipt(l, v, s);
    }
  }

  lemma SameReports(l: Listing, f: seq<Failure>, g: seq<Failure>, done: set<Hash>)
    requires Reports(l, f, done) && Reports(l, g, done)
    ensures multiset(f) == multiset(g)
  {
    forall x: Failure
      ensures multiset(f)[x] == multiset(g)[x]
    {
      OnceEach(f, x);
      OnceEach(g, x);
      if x in f {
        var i :| 0 <= i < |g| && g[i].hash == x.hash;
        assert g[i] == x;
      }
      if x in g {
        var i :| 0 <= i < |f| && f[i].hash == x.hash;
        assert f[i] == x;
      }
    }
  }

  lemma {:induction false} OnceEach(f: seq<Failure>, x: Failure)
    requires forall i, j :: 0 <= i < j < |f| ==> f[i].hash != f[j].hash
    ensures multiset(f)[x] == if x in f then 1 else 0
  {
    if f != [] {
      OnceEach(f[1..], x);
      assert f == [f[0]] + f[1..];
      assert x in f[1..] ==> x.hash != f[0].hash;
    }
  }

  // ---- Soundness ----

  lemma SomeItem(l: Listing, u: seq<Entry>)
    requires Represents(u, l.held)
    ensures Items(l, u, AReceipt) != [] <==> exists h :: l.HasReceipt(h)
    ensures Items(l, u, AClaim) != [] <==> exists h :: l.HasClaim(h)
  {
    ItemsFiled(l, u, AReceipt);
    ItemsFiled(l, u, AClaim);
    var receipts, claims := Items(l, u, AReceipt), Items(l, u, AClaim);
    assert forall h :: l.HasReceipt(h) ==> HasHash(receipts, h);
    assert forall h :: l.HasClaim(h) ==> HasHash(claims, h);
    assert receipts != [] ==> l.HasReceipt(receipts[0].hash);
    assert claims != [] ==> l.HasClaim(claims[0].hash);
  }

  lemma ReceiptNeedsClaim(l: Listing, h: Hash)
    requires l.Clean() && l.HasReceipt(h)
    ensures exists claim :: l.HasClaim(claim)
  {
    assert l.ProblemOf(h) == None;
    assert l.HasClaim(l.At(h).claim);
  }

  /** Which state a listing is in, with no reference to its order. */
  lemma StateIs(l: Listing, u: seq<Entry>, r: Provenance)
    requires Represents(u, l.held) && Reads(l, u, r)
    ensures r.Failed? <==> exists h :: h in l.held && l.ProblemOf(h).Some?
    ensures r.Unavailable? <==> (forall h :: h in l.held ==> l.ProblemOf(h) == None) && exists h :: l.Lacks(h)
    ensures r.Verified? <==> l.Clean() && exists h :: l.HasReceipt(h)
    ensures r.DeviceOnly? <==> l.Clean() && (exists h :: l.HasClaim(h)) && !exists h :: l.HasReceipt(h)
    ensures r.Unverified? <==> l.Clean() && !exists h :: l.HasClaim(h)
  {
    if r.Failed? {
      assert r.failures[0].hash in l.held && l.ProblemOf(r.failures[0].hash).Some?;
    } else if r.Unavailable? {
      assert r.missing[0] in r.missing;
    } else {
      SomeItem(l, u);
      ShownState(l, u);
      forall h | l.HasReceipt(h)
        ensures exists claim :: l.HasClaim(claim)
      {
        ReceiptNeedsClaim(l, h);
      }
    }
  }

  lemma ShownState(l: Listing, u: seq<Entry>)
    requires Represents(u, l.held) && l.Clean()
    ensures Shown(l, u).Verified? <==> Items(l, u, AReceipt) != []
    ensures Shown(l, u).DeviceOnly? <==> Items(l, u, AReceipt) == [] && Items(l, u, AClaim) != []
    ensures Shown(l, u).Unverified? <==> Items(l, u, AReceipt) == [] && Items(l, u, AClaim) == []
  {
  }

  /** The time shown is a passing receipt's, and no passing receipt is earlier. */
  lemma EarliestReceipt(l: Listing, u: seq<Entry>, r: Provenance)
    requires Represents(u, l.held) && Reads(l, u, r) && r.Verified?
    ensures exists h :: l.HasReceipt(h) && l.At(h).receivedAt == r.receivedAt && l.HasClaim(l.At(h).claim)
                        && r.claimed.deviceKey == l.At(l.At(h).claim).deviceKey
                        && (r.recordedByHost <==> l.At(h).hostKey == r.claimed.deviceKey)
    ensures forall h :: l.HasReceipt(h) ==> !Earlier(l.crypto.time(l.At(h).receivedAt), l.crypto.time(r.receivedAt))
  {
    ItemsFiled(l, u, AReceipt);
    ItemsFiled(l, u, AClaim);
    var receipts, claims := Items(l, u, AReceipt), Items(l, u, AClaim);
    var earliest := EarliestItem(l.crypto, receipts).value;
    var i :| 0 <= i < |receipts| && receipts[i].payload == earliest;
    CleanIsSorted(l, u);
    var claim := Lookup(claims, earliest.claim).value;
    var k :| 0 <= k < |claims| && claims[k] == Item(earliest.claim, claim);
    assert l.HasReceipt(receipts[i].hash) && l.At(receipts[i].hash) == earliest;
    forall h | l.HasReceipt(h)
      ensures !Earlier(l.crypto.time(l.At(h).receivedAt), l.crypto.time(r.receivedAt))
    {
      assert HasHash(receipts, h);
    }
  }

  /** Each field of a shown person is that field of the certificate or vouch, and a vouch is shown as one. */
  predicate IsPersonOf(person: Person, link: Payload)
    requires IsLink(link)
  {
    && person.personKey == link.personKey && person.deviceLabel == link.deviceLabel
    && (link.Certificate? ==> person.ByCertificate? && person.issuedAt == link.issuedAt)
    && (link.Vouch? ==>
      && person.ByVouch? && person.personName == link.personName && person.hostKey == link.hostKey
      && person.hostLabel == link.hostLabel && person.method_ == link.method_ && person.vouchedAt == link.vouchedAt)
  }

  /** What is shown of a session is what its record says. */
  predicate IsSessionOf(shown: VerifiedSession, record: Payload)
    requires record.Session?
  {
    && shown.openedAt == record.openedAt && shown.closedAt == record.closedAt && shown.hostKey == record.hostKey
    && |shown.devices| == |record.devices|
    && forall i :: 0 <= i < |record.devices| ==>
      shown.devices[i].0 == record.devices[i].deviceKey && shown.devices[i].1 == record.devices[i].spans
  }

  /** The first listed statement of a kind that passes. */
  ghost predicate IsFirstOf(l: Listing, u: seq<Entry>, k: int, kind: Kind) {
    0 <= k < |u| && IsKind(l, u[k].hash, kind) && forall j :: 0 <= j < k ==> !IsKind(l, u[j].hash, kind)
  }

  lemma {:induction false} FirstItem(l: Listing, u: seq<Entry>, kind: Kind)
    ensures Items(l, u, kind) != [] ==> exists k :: IsFirstOf(l, u, k, kind) && u[k].hash == Items(l, u, kind)[0].hash
    ensures Items(l, u, kind) == [] ==> forall k :: 0 <= k < |u| ==> !IsKind(l, u[k].hash, kind)
  {
    if u != [] {
      var n := |u| - 1;
      FirstItem(l, u[..n], kind);
      var before := Items(l, u[..n], kind);
      if before != [] {
        var k :| IsFirstOf(l, u[..n], k, kind) && u[..n][k].hash == before[0].hash;
        assert IsFirstOf(l, u, k, kind) && u[k] == u[..n][k];
      } else if IsKind(l, u[n].hash, kind) {
        assert IsFirstOf(l, u, n, kind);
      }
    }
  }

  /** What is shown of a recording, in terms of the one passing claim it is shown for. */
  ghost predicate ShowsClaim(l: Listing, u: seq<Entry>, claim: Hash, shown: Claimed)
    requires l.HasClaim(claim)
  {
    var p := l.At(claim);
    && shown.deviceKey == p.deviceKey && shown.startedAt == p.startedAt && shown.endedAt == p.endedAt
    && shown.sessionId == p.sessionId
    && (shown.person.Some? <==> p.deviceCert.Some? && l.HasLink(p.deviceCert.value))
    && shown.deviceLink == (if shown.person.Some? then p.deviceCert else None)
    && (shown.person.Some? ==> IsPersonOf(shown.person.value, l.At(p.deviceCert.value)))
    && (shown.session.Some? <==> exists h :: l.Passes(h) && l.At(h).Session?)
    && (shown.session.Some? ==>
      exists k :: IsFirstOf(l, u, k, ASession) && l.At(u[k].hash).Session?
        && IsSessionOf(shown.session.value, l.At(u[k].hash)))
  }

  /** The time and the host shown are those of a passing receipt for the claim. */
  ghost predicate ShowsReceipt(l: Listing, claim: Hash, r: Provenance)
    requires l.HasClaim(claim) && r.Verified?
  {
    exists h ::
      && l.HasReceipt(h) && l.At(h).claim == claim && l.At(h).receivedAt == r.receivedAt
      && (r.recordedByHost <==> l.At(h).hostKey == l.At(claim).deviceKey)
  }

  /**
   * What the reader shows is what one passing claim says: of itself, of the person in the link it names
   * when that link passes, and of the first passing session record. Where a receipt passes, it is the claim of
   * an earliest one, and else the first claim.
   */
  lemma ShownIs(l: Listing, u: seq<Entry>, r: Provenance)
    requires Represents(u, l.held) && Reads(l, u, r) && ClaimedOf(r).Some?
    ensures exists claim ::
      && l.HasClaim(claim) && ShowsClaim(l, u, claim, ClaimedOf(r).value)
      && (r.Verified? ==> ShowsReceipt(l, claim, r))
      && (r.DeviceOnly? ==> exists k :: IsFirstOf(l, u, k, AClaim) && u[k].hash == claim)
  {
    CleanIsSorted(l, u);
    ItemsFiled(l, u, AClaim);
    ItemsFiled(l, u, AReceipt);
    var claims, receipts := Items(l, u, AClaim), Items(l, u, AReceipt);
    if r.Verified? {
      var earliest := EarliestItem(l.crypto, receipts).value;
      var i :| 0 <= i < |receipts| && receipts[i].payload == earliest;
      var k :| 0 <= k < |claims| && claims[k] == Item(earliest.claim, Lookup(claims, earliest.claim).value);
      assert l.HasReceipt(receipts[i].hash) && l.At(receipts[i].hash) == earliest;
      ShowIs(l, u, claims[k].hash, Some(r.receivedAt));
    } else {
      FirstItem(l, u, AClaim);
      ShowIs(l, u, claims[0].hash, None);
    }
  }

  lemma ShowIs(l: Listing, u: seq<Entry>, claim: Hash, receivedAt: Option<string>)
    requires Represents(u, l.held) && l.Clean() && l.HasClaim(claim)
    ensures Sorted([], [], Items(l, u, ASession), Items(l, u, ALink), Items(l, u, ARevocation))
    ensures ShowsClaim(l, u, claim, Show(l.crypto, l.At(claim), FirstPayload(Items(l, u, ASession)), Items(l, u, ALink),
      Items(l, u, ARevocation), receivedAt))
  {
    CleanIsSorted(l, u);
    ItemsFiled(l, u, ASession);
    ItemsFiled(l, u, ALink);
    var sessions := Items(l, u, ASession);
    if sessions != [] {
      FirstItem(l, u, ASession);
      assert l.Passes(sessions[0].hash) && IsSessionOf(ShowSession(sessions[0].payload), l.At(sessions[0].hash));
    }
    if h :| l.Passes(h) && l.At(h).Session? {
      assert HasHash(sessions, h);
    }
    var link := l.At(claim).deviceCert;
    if link.Some? {
      FiledHas(l, Items(l, u, ALink), ALink, link.value);
    }
  }

  /** Under its own address, in canonical form, and signed by the key it names. */
  ghost predicate Authentic(c: Crypto, h: Hash, bytes: Bytes) {
    exists s, key :: c.hash(bytes) == h && c.parse(bytes) == Some(s) && c.write(s) == Some(bytes)
      && Signs(s.payload, key) && c.verify(s, key)
  }

  /** The key a statement of each type is signed by. */
  predicate Signs(p: Payload, key: Key) {
    match p
    case Claim(_, _, _, _, _, _, deviceKey, _, _) => key == deviceKey
    case Receipt(_, _, hostKey, _) => key == hostKey
    case Session(_, _, _, _, _, hostKey, _) => key == hostKey
    case Certificate(personKey, _, _, _, _) => key == personKey
    case Vouch(hostKey, _, _, _, _, _, _, _, _, _) => key == hostKey
    case Revocation(signerKey, _, _, _, _, _, _) => key == signerKey
    case _ => false
  }

  /** A statement passes its own check exactly when it is authentic, and a claim is of this audio. */
  lemma PassesIff(l: Listing, h: Hash)
    requires h in l.held && l.held[h].Some?
    ensures var s := l.crypto.parse(l.held[h].value);
      l.Passes(h) <==>
        && Authentic(l.crypto, h, l.held[h].value)
        && (s.value.payload.Claim? ==> s.value.payload.blobHash == l.audio.hash && s.value.payload.size == l.audio.size)
  {
    var c, bytes := l.crypto, l.held[h].value;
    if l.Passes(h) {
      var s := c.parse(bytes).value;
      var key := if s.payload.Claim? then s.payload.deviceKey else SignerOf(s.payload).value;
      assert Signs(s.payload, key) && c.verify(s, key);
    }
  }

  /** The bytes served for an address are its own, and are what a statement is stored as. */
  predicate OwnBytes(c: Crypto, h: Hash, bytes: Bytes, s: Signed) {
    c.hash(bytes) == h && c.parse(bytes) == Some(s) && c.write(s) == Some(bytes)
  }

  predicate IsOf(claim: Payload, audio: Audio)
    requires claim.Claim?
  {
    claim.blobHash == audio.hash && claim.size == audio.size
  }

  /** Which failure of its own check a statement is reported with. */
  lemma OwnProblemIs(c: Crypto, h: Hash, bytes: Bytes, audio: Audio)
    ensures CheckStatement(c, h, bytes, audio) == Bad(AddressMismatch) <==> c.hash(bytes) != h
    ensures CheckStatement(c, h, bytes, audio) == Bad(NotCanonical)
      <==> c.hash(bytes) == h && c.parse(bytes).Some? && c.write(c.parse(bytes).value) != Some(bytes)
    ensures c.hash(bytes) == h && c.parse(bytes).None? ==> CheckStatement(c, h, bytes, audio) == Bad(Malformed)
    ensures forall s :: OwnBytes(c, h, bytes, s) ==>
      var checked, p := CheckStatement(c, h, bytes, audio), s.payload;
      && (p.Misshapen? <==> checked == Bad(Malformed))
      && (p.Other? <==> checked == Unknown)
      && (p.Claim? && p.blobHash != audio.hash <==> checked == Bad(HashMismatch))
      && (p.Claim? && p.blobHash == audio.hash && p.size != audio.size <==> checked == Bad(SizeMismatch))
      && ((p.Claim? ==> IsOf(p, audio)) && (exists key :: Signs(p, key) && !c.verify(s, key))
        <==> checked == Bad(BadSignature))
  {
    forall s | OwnBytes(c, h, bytes, s)
      ensures SignerOf(s.payload).Some? ==> Signs(s.payload, SignerOf(s.payload).value)
      ensures s.payload.Claim? ==> Signs(s.payload, s.payload.deviceKey)
    {
    }
  }

  /** Which failure a statement that passes its own check is reported with, next to the others. */
  lemma ProblemIs(l: Listing, h: Hash)
    requires l.Passes(h)
    ensures var p := l.At(h);
      && (l.ProblemOf(h) == Some(ClaimNotListed) <==> p.Receipt? && !l.HasClaim(p.claim))
      && (l.ProblemOf(h) == Some(SessionMismatch) <==> p.Session? && !exists k :: l.InSession(k, p.sessionId))
      && (l.ProblemOf(h) == Some(ClaimNotInSession) <==>
        && p.Session? && (exists k :: l.InSession(k, p.sessionId))
        && !exists k :: l.InSession(k, p.sessionId) && k in p.claims)
      && (l.ProblemOf(h) == Some(CertificateNotClaimed) <==> IsLink(p) && !exists k :: l.Names(k, h))
      && (l.ProblemOf(h) == Some(CertificateDeviceMismatch) <==>
        IsLink(p) && exists k :: l.Names(k, h) && l.At(k).deviceKey != p.deviceKey)
      && (l.ProblemOf(h) == Some(RevocationNotClaimed) <==> p.Revocation? && !l.HasLink(p.deviceLink))
      && (l.ProblemOf(h) == Some(RevocationNotPermitted) <==>
        && p.Revocation? && l.HasLink(p.deviceLink)
        && !RevocationCovers(p, l.At(p.deviceLink), p.deviceLink))
      && (p.Claim? ==> l.ProblemOf(h) == None)
  {
  }

  /** Everything in a clean listing is bound to the recording's own audio. */
  ghost predicate Bound(l: Listing, h: Hash)
    requires l.Passes(h)
  {
    var p := l.At(h);
    if p.Claim? then p.blobHash == l.audio.hash && p.size == l.audio.size
    else if p.Receipt? then l.HasClaim(p.claim)
    else if p.Session? then exists claim :: l.InSession(claim, p.sessionId) && claim in p.claims
    else if IsLink(p) then
      (exists claim :: l.Names(claim, h)) && forall claim :: l.Names(claim, h) ==> l.At(claim).deviceKey == p.deviceKey
    else p.Revocation? && l.HasLink(p.deviceLink) && RevocationCovers(p, l.At(p.deviceLink), p.deviceLink)
  }

  /**
   * `verified`, `device-only` and `unverified` are exactly the listings where everything was served,
   * every statement of a known type passes its own check and is bound to the recording, and every
   * link a claim names is listed.
   */
  lemma CleanIff(l: Listing, u: seq<Entry>, r: Provenance)
    requires Represents(u, l.held) && Reads(l, u, r)
    ensures r.Verified? || r.DeviceOnly? || r.Unverified? <==>
      && (forall h :: h in l.held ==> l.held[h].Some?)
      && (forall h :: h in l.held ==> !CheckStatement(l.crypto, h, l.held[h].value, l.audio).Bad?)
      && (forall h :: l.Passes(h) ==> Bound(l, h))
      && (forall claim, link :: l.Names(claim, link) ==> link in l.held)
  {
    StateIs(l, u, r);
    if l.Clean() {
      CleanIsBound(l);
    } else {
      if h :| h in l.held && l.ProblemOf(h) != None {
        ProblemIsUnbound(l, h);
      } else {
        var h :| l.Lacks(h);
      }
    }
  }

  lemma CleanIsBound(l: Listing)
    requires l.Clean()
    ensures forall h :: h in l.held ==> l.held[h].Some? && !CheckStatement(l.crypto, h, l.held[h].value, l.audio).Bad?
    ensures forall h :: l.Passes(h) ==> Bound(l, h)
    ensures forall claim, link :: l.Names(claim, link) ==> link in l.held
  {
    forall h | l.Passes(h)
      ensures Bound(l, h)
    {
      assert l.ProblemOf(h) == None;
    }
    forall h | h in l.held
      ensures l.held[h].Some? && !CheckStatement(l.crypto, h, l.held[h].value, l.audio).Bad?
    {
      assert l.ProblemOf(h) == None && !l.Lacks(h);
    }
    forall claim, link | l.Names(claim, link)
      ensures link in l.held
    {
      assert !l.Lacks(link);
    }
  }

  lemma ProblemIsUnbound(l: Listing, h: Hash)
    requires h in l.held && l.ProblemOf(h) != None
    ensures l.held[h].Some?
    ensures CheckStatement(l.crypto, h, l.held[h].value, l.audio).Bad? || (l.Passes(h) && !Bound(l, h))
  {
  }

  // ---- Revocations ----

  /** The listing with one more statement. */
  function With(l: Listing, e: Entry): Listing {
    l.(held := l.held[e.hash := e.bytes])
  }

  /** A served statement, at a new address, that passes its own check as a revocation. */
  predicate IsNewRevocation(l: Listing, e: Entry) {
    e.hash !in l.held && With(l, e).HasRevocation(e.hash)
  }

  /** It withdraws a certificate or vouch that passes here, by a signer who may. */
  predicate Permitted(l: Listing, e: Entry)
    requires IsNewRevocation(l, e)
  {
    l.RevocationProblem(With(l, e).At(e.hash)) == None
  }

  lemma RepresentsWith(l: Listing, u: seq<Entry>, e: Entry)
    requires Represents(u, l.held) && e.hash !in l.held
    ensures Represents(u + [e], With(l, e).held)
  {
    forall i | 0 <= i < |u|
      ensures u[i].hash != e.hash
    {
      assert u[i] in u;
    }
  }

  /** The list with one more entry at some place. */
  function Inserted(u: seq<Entry>, e: Entry, k: nat): seq<Entry>
    requires k <= |u|
  {
    u[..k] + [e] + u[k..]
  }

  lemma RepresentsInserted(l: Listing, u: seq<Entry>, e: Entry, k: nat)
    requires Represents(u, l.held) && e.hash !in l.held && k <= |u|
    ensures Represents(Inserted(u, e, k), With(l, e).held)
  {
    var v := Inserted(u, e, k);
    forall i | 0 <= i < |u|
      ensures u[i].hash != e.hash
    {
      assert u[i] in u;
    }
    forall i, j | 0 <= i < j < |v|
      ensures v[i].hash != v[j].hash
    {
      assert i != k ==> v[i] == u[if i < k then i else i - 1];
      assert j != k ==> v[j] == u[if j < k then j else j - 1];
    }
    InInserted(u, e, k);
  }

  lemma InInserted(u: seq<Entry>, e: Entry, k: nat)
    requires k <= |u|
    ensures forall x: Entry :: x in Inserted(u, e, k) <==> x == e || x in u
  {
    assert u == u[..k] + u[k..];
  }

  lemma RevocationChangesNoOther(l: Listing, e: Entry, h: Hash)
    requires IsNewRevocation(l, e)
    ensures var m := With(l, e);
      && (m.HasClaim(h) <==> l.HasClaim(h)) && (m.HasLink(h) <==> l.HasLink(h))
      && (forall link :: m.Names(h, link) <==> l.Names(h, link))
      && (forall session :: m.InSession(h, session) <==> l.InSession(h, session))
      && (l.Passes(h) ==> m.Passes(h) && m.At(h) == l.At(h))
      && (h != e.hash && m.Passes(h) ==> l.Passes(h))
  {
  }

  lemma RevocationKeepsProblems(l: Listing, e: Entry, h: Hash)
    requires IsNewRevocation(l, e) && h in l.held
    ensures With(l, e).ProblemOf(h) == l.ProblemOf(h)
  {
    var m := With(l, e);
    forall k
      ensures m.HasClaim(k) <==> l.HasClaim(k)
      ensures m.HasLink(k) <==> l.HasLink(k)
      ensures forall link :: m.Names(k, link) <==> l.Names(k, link)
      ensures forall session :: m.InSession(k, session) <==> l.InSession(k, session)
      ensures l.Passes(k) ==> m.Passes(k) && m.At(k) == l.At(k)
    {
      RevocationChangesNoOther(l, e, k);
    }
    if l.Passes(h) && l.At(h).Session? {
      var record := l.At(h);
      assert m.SessionProblem(record) == l.SessionProblem(record);
    } else if l.HasLink(h) {
      assert m.LinkProblem(l.At(h), h) == l.LinkProblem(l.At(h), h);
    }
  }

  /** A person withdraws what names them, a host what it vouched for, each for the device it is about. */
  predicate MayWithdraw(revocation: Payload, link: Payload)
    requires revocation.Revocation? && IsLink(link)
  {
    && link.deviceKey == revocation.deviceKey
    && match revocation.signedBy {
      case ByPerson => link.personKey == revocation.signerKey
      case ByHost => link.Vouch? && link.hostKey == revocation.signerKey
    }
  }

  /**
   * A revocation fails, in any listing, exactly when its signer could not withdraw a passing link, and
   * a permitted one leaves a clean listing clean.
   */
  lemma RevocationFailsIff(l: Listing, e: Entry)
    requires IsNewRevocation(l, e)
    ensures var revocation := With(l, e).At(e.hash);
      Permitted(l, e) <==>
        l.HasLink(revocation.deviceLink) && MayWithdraw(revocation, l.At(revocation.deviceLink))
    ensures With(l, e).ProblemOf(e.hash).Some? <==> !Permitted(l, e)
    ensures l.Clean() ==> (With(l, e).Clean() <==> Permitted(l, e))
  {
    var m := With(l, e);
    var revocation := m.At(e.hash);
    RevocationChangesNoOther(l, e, revocation.deviceLink);
    assert m.ProblemOf(e.hash) == l.RevocationProblem(revocation);
    if l.Clean() && Permitted(l, e) {
      forall h | h in m.held
        ensures m.ProblemOf(h) == None
      {
        if h != e.hash {
          RevocationKeepsProblems(l, e, h);
        }
      }
      forall h
        ensures !m.Lacks(h)
      {
        assert !l.Lacks(h);
        if claim :| claim in m.held && m.Names(claim, h) {
          RevocationChangesNoOther(l, e, claim);
        }
      }
    }
  }

  lemma {:induction false} ItemsIgnore(l: Listing, u: seq<Entry>, e: Entry, kind: Kind)
    requires IsNewRevocation(l, e) && forall i :: 0 <= i < |u| ==> u[i].hash in l.held
    ensures Items(With(l, e), u, kind) == Items(l, u, kind)
  {
    if u != [] {
      ItemsIgnore(l, u[..|u| - 1], e, kind);
      RevocationChangesNoOther(l, e, u[|u| - 1].hash);
    }
  }

  lemma AllHeld(l: Listing, u: seq<Entry>)
    requires Represents(u, l.held)
    ensures forall i :: 0 <= i < |u| ==> u[i].hash in l.held
  {
    forall i | 0 <= i < |u|
      ensures u[i].hash in l.held
    {
      assert u[i] in u;
    }
  }

  lemma {:induction false} ItemsConcat(l: Listing, a: seq<Entry>, b: seq<Entry>, kind: Kind)
    ensures Items(l, a + b, kind) == Items(l, a, kind) + Items(l, b, kind)
  {
    if b == [] {
      assert a + b == a;
    } else {
      var n := |b| - 1;
      ItemsConcat(l, a, b[..n], kind);
      assert (a + b)[..|a + b| - 1] == a + b[..n] && (a + b)[|a + b| - 1] == b[n];
    }
  }

  lemma ItemsWith(l: Listing, m: Listing, u: seq<Entry>, e: Entry, k: nat, kind: Kind)
    requires Represents(u, l.held) && k <= |u| && IsNewRevocation(l, e) && m == With(l, e) && kind != ARevocation
    ensures Items(m, Inserted(u, e, k), kind) == Items(l, u, kind)
  {
    AllHeld(l, u);
    ItemsIgnore(l, u, e, kind);
    ItemsInserted(m, u, e, k, kind);
  }

  lemma ItemsInserted(m: Listing, u: seq<Entry>, e: Entry, k: nat, kind: Kind)
    requires k <= |u| && !IsKind(m, e.hash, kind)
    ensures Items(m, Inserted(u, e, k), kind) == Items(m, u, kind)
  {
    ItemsConcat(m, u[..k] + [e], u[k..], kind);
    ItemsAppend(m, u[..k], e, kind);
    assert u == u[..k] + u[k..];
    ItemsConcat(m, u[..k], u[k..], kind);
  }

  lemma ItemsAppend(l: Listing, u: seq<Entry>, e: Entry, kind: Kind)
    ensures IsKind(l, e.hash, kind) ==> Items(l, u + [e], kind) == Items(l, u, kind) + [Item(e.hash, l.At(e.hash))]
    ensures !IsKind(l, e.hash, kind) ==> Items(l, u + [e], kind) == Items(l, u, kind)
  {
    assert (u + [e])[..|u|] == u;
  }

  function ClaimedOf(r: Provenance): Option<Claimed> {
    match r
    case Verified(_, _, claimed) => Some(claimed)
    case DeviceOnly(claimed) => Some(claimed)
    case _ => None
  }

  /** Equal up to the revocation that is shown. */
  predicate SameButRevocation(r: Provenance, s: Provenance) {
    match r
    case Verified(at, byHost, c) =>
      s.Verified? && s.receivedAt == at && s.recordedByHost == byHost
        && s.claimed == c.(revocation := s.claimed.revocation)
    case DeviceOnly(c) => s.DeviceOnly? && s.claimed == c.(revocation := s.claimed.revocation)
    case _ => r == s
  }

  /** Adding a permitted revocation to a clean recording, anywhere in its list, changes nothing else that is shown. */
  lemma RevocationAnnotates(l: Listing, u: seq<Entry>, e: Entry, k: nat)
    requires Represents(u, l.held) && k <= |u| && l.Clean() && IsNewRevocation(l, e) && Permitted(l, e)
    ensures Represents(Inserted(u, e, k), With(l, e).held) && With(l, e).Clean()
    ensures SameButRevocation(Shown(l, u), Shown(With(l, e), Inserted(u, e, k)))
  {
    RepresentsInserted(l, u, e, k);
    RevocationFailsIff(l, e);
    ItemsWith(l, With(l, e), u, e, k, AClaim);
    ItemsWith(l, With(l, e), u, e, k, AReceipt);
    ItemsWith(l, With(l, e), u, e, k, ASession);
    ItemsWith(l, With(l, e), u, e, k, ALink);
    CleanIsSorted(l, u);
    CleanIsSorted(With(l, e), Inserted(u, e, k));
    ComposeIgnoresRevocations(l.crypto, Items(l, u, AClaim), Items(l, u, AReceipt), Items(l, u, ASession),
      Items(l, u, ALink), Items(l, u, ARevocation), Items(With(l, e), Inserted(u, e, k), ARevocation));
  }

  lemma ComposeIgnoresRevocations(c: Crypto, claims: seq<Item>, receipts: seq<Item>, sessions: seq<Item>,
      links: seq<Item>, some: seq<Item>, more: seq<Item>)
    requires Sorted(claims, receipts, sessions, links, some) && Sorted(claims, receipts, sessions, links, more)
    ensures SameButRevocation(Compose(c, claims, receipts, sessions, links, some),
      Compose(c, claims, receipts, sessions, links, more))
  {
  }

  /** A revocation of a link, among those that pass. */
  predicate Revokes(l: Listing, h: Hash, link: Hash) {
    l.HasRevocation(h) && l.At(h).deviceLink == link
  }

  /**
   * The revocation shown is one that withdraws the shown link, no other such revocation is earlier,
   * and none is shown exactly when there is none.
   */
  lemma ShownRevocationIsFirst(l: Listing, u: seq<Entry>)
    requires Represents(u, l.held) && l.Clean() && ClaimedOf(Shown(l, u)).Some?
    ensures var claimed, time := ClaimedOf(Shown(l, u)).value, l.crypto.time;
      && (claimed.revocation.Some? <==> claimed.deviceLink.Some? && exists h :: Revokes(l, h, claimed.deviceLink.value))
      && (claimed.revocation.Some? ==>
        var first := claimed.revocation.value;
        && (exists h :: Revokes(l, h, claimed.deviceLink.value) && l.At(h).revokedAt == first.revokedAt
                        && l.At(h).signerKey == first.signerKey && l.At(h).signedBy == first.signedBy
                        && l.At(h).reason == first.reason)
        && (first.receivedBefore <==>
          time(first.revokedAt).Some? && Earlier(Arrival(Shown(l, u), l.crypto), time(first.revokedAt)))
        && forall h :: Revokes(l, h, claimed.deviceLink.value) ==>
          !Earlier(time(l.At(h).revokedAt), time(first.revokedAt)))
  {
    var claimed := ClaimedOf(Shown(l, u)).value;
    RevocationShown(l, u);
    if claimed.deviceLink.Some? {
      FirstRevokes(l, u, claimed.deviceLink.value);
    }
  }

  /** Which revocation is shown. */
  lemma RevocationShown(l: Listing, u: seq<Entry>)
    requires Represents(u, l.held) && l.Clean() && ClaimedOf(Shown(l, u)).Some?
    ensures var r, claimed := Shown(l, u), ClaimedOf(Shown(l, u)).value;
      match claimed.deviceLink
      case None => claimed.revocation == None
      case Some(address) =>
        && l.HasLink(address)
        && match FirstRevocation(l, u, address) {
          case None => claimed.revocation == None
          case Some(first) =>
            && first.Revocation?
            && claimed.revocation
              == Some(ShowRevocation(l.crypto, first, if r.Verified? then Some(r.receivedAt) else None))
        }
  {
    CleanIsSorted(l, u);
    ItemsFiled(l, u, ALink);
    var claimed := ClaimedOf(Shown(l, u)).value;
    if claimed.deviceLink.Some? {
      var address := claimed.deviceLink.value;
      assert l.HasLink(address) && Lookup(Items(l, u, ALink), address) == Some(l.At(address));
    }
  }

  /** `firstRevocation` over the statements of a clean listing. */
  function FirstRevocation(l: Listing, u: seq<Entry>, address: Hash): Option<Payload>
    requires Represents(u, l.held) && l.Clean() && l.HasLink(address)
  {
    CleanIsSorted(l, u);
    EarliestItem(l.crypto, Covering(Items(l, u, ARevocation), l.At(address), address))
  }

  lemma FirstRevokes(l: Listing, u: seq<Entry>, address: Hash)
    requires Represents(u, l.held) && l.Clean() && l.HasLink(address)
    ensures var first := FirstRevocation(l, u, address);
      && (first.Some? <==> exists h :: Revokes(l, h, address))
      && (first.Some? ==>
        && (exists h :: Revokes(l, h, address) && l.At(h) == first.value)
        && forall h :: Revokes(l, h, address) ==>
          !Earlier(l.crypto.time(l.At(h).revokedAt), l.crypto.time(first.value.revokedAt)))
  {
    CleanIsSorted(l, u);
    CoveringAreRevoking(l, u, l.At(address), address);
    var r := Covering(Items(l, u, ARevocation), l.At(address), address);
    var first := EarliestItem(l.crypto, r);
    if first.Some? {
      var i :| 0 <= i < |r| && r[i].payload == first.value;
      assert Revokes(l, r[i].hash, address);
    }
  }

  /**
   * A further permitted revocation can only move the shown end of trust back, and so can only turn
   * `receivedBeforeRevocation` from true to false, unless no revocation so far has a time that parses.
   */
  lemma RevocationOnlyAddsDoubt(l: Listing, u: seq<Entry>, e: Entry, k: nat)
    requires Represents(u, l.held) && k <= |u| && l.Clean() && IsNewRevocation(l, e) && Permitted(l, e)
    requires ClaimedOf(Shown(l, u)).Some? && ClaimedOf(Shown(l, u)).value.revocation.Some?
    requires l.crypto.time(ClaimedOf(Shown(l, u)).value.revocation.value.revokedAt).Some?
    ensures Represents(Inserted(u, e, k), With(l, e).held) && With(l, e).Clean()
    ensures ClaimedOf(Shown(With(l, e), Inserted(u, e, k))).Some?
    ensures ClaimedOf(Shown(With(l, e), Inserted(u, e, k))).value.revocation.Some?
    ensures var before := ClaimedOf(Shown(l, u)).value.revocation.value;
      var after := ClaimedOf(Shown(With(l, e), Inserted(u, e, k))).value.revocation.value;
      && (after.receivedBefore ==> before.receivedBefore)
      && !Earlier(l.crypto.time(before.revokedAt), l.crypto.time(after.revokedAt))
  {
    var m, v := With(l, e), Inserted(u, e, k);
    RevocationAnnotates(l, u, e, k);
    ShownRevocationIsFirst(l, u);
    ShownRevocationIsFirst(m, v);
    var r, s := Shown(l, u), Shown(m, v);
    var link := ClaimedOf(r).value.deviceLink.value;
    var h :| Revokes(l, h, link) && l.At(h).revokedAt == ClaimedOf(r).value.revocation.value.revokedAt;
    RevocationChangesNoOther(l, e, h);
    assert Revokes(m, h, link);
    ReceivedBefore(l, u);
    ReceivedBefore(m, v);
    SameArrival(r, s, l.crypto);
  }

  /**
   * A further permitted revocation turns `receivedBeforeRevocation` from false to true exactly when no
   * revocation of the shown link so far has a time that parses, and it withdraws that link at a time
   * that parses and is later than the arrival.
   */
  lemma RevocationEndsDoubtIff(l: Listing, u: seq<Entry>, e: Entry, k: nat)
    requires Represents(u, l.held) && k <= |u| && l.Clean() && IsNewRevocation(l, e) && Permitted(l, e)
    requires ClaimedOf(Shown(l, u)).Some? && ClaimedOf(Shown(l, u)).value.revocation.Some?
    ensures Represents(Inserted(u, e, k), With(l, e).held) && With(l, e).Clean()
    ensures ClaimedOf(Shown(With(l, e), Inserted(u, e, k))).Some?
    ensures ClaimedOf(Shown(With(l, e), Inserted(u, e, k))).value.revocation.Some?
    ensures var before := ClaimedOf(Shown(l, u)).value.revocation.value;
      var after := ClaimedOf(Shown(With(l, e), Inserted(u, e, k))).value.revocation.value;
      var added, time := With(l, e).At(e.hash), l.crypto.time;
      after.receivedBefore && !before.receivedBefore <==>
        && time(before.revokedAt).None?
        && Some(added.deviceLink) == ClaimedOf(Shown(l, u)).value.deviceLink
        && time(added.revokedAt).Some? && Earlier(Arrival(Shown(l, u), l.crypto), time(added.revokedAt))
  {
    var m, v := With(l, e), Inserted(u, e, k);
    RevocationAnnotates(l, u, e, k);
    ShownRevocationIsFirst(l, u);
    ShownRevocationIsFirst(m, v);
    var r, s := Shown(l, u), Shown(m, v);
    var link := ClaimedOf(r).value.deviceLink.value;
    var g :| Revokes(l, g, link) && l.At(g).revokedAt == ClaimedOf(r).value.revocation.value.revokedAt;
    RevocationChangesNoOther(l, e, g);
    assert Revokes(m, g, link);
    var h :| Revokes(m, h, link) && m.At(h).revokedAt == ClaimedOf(s).value.revocation.value.revokedAt;
    if h != e.hash {
      RevocationChangesNoOther(l, e, h);
      assert Revokes(l, h, link);
    }
    if m.At(e.hash).deviceLink == link {
      assert Revokes(m, e.hash, link);
    }
    ReceivedBefore(l, u);
    ReceivedBefore(m, v);
    SameArrival(r, s, l.crypto);
  }

  /** When the recording is known to have reached a host. */
  function Arrival(r: Provenance, c: Crypto): Option<int> {
    if r.Verified? then c.time(r.receivedAt) else None
  }

  lemma SameArrival(r: Provenance, s: Provenance, c: Crypto)
    requires SameButRevocation(r, s)
    ensures Arrival(r, c) == Arrival(s, c)
  {
  }

  lemma ReceivedBefore(l: Listing, u: seq<Entry>)
    requires Represents(u, l.held) && l.Clean()
    requires ClaimedOf(Shown(l, u)).Some? && ClaimedOf(Shown(l, u)).value.revocation.Some?
    ensures var revoked := ClaimedOf(Shown(l, u)).value.revocation.value;
      revoked.receivedBefore <==>
        l.crypto.time(revoked.revokedAt).Some?
          && Earlier(Arrival(Shown(l, u), l.crypto), l.crypto.time(revoked.revokedAt))
  {
  }

  lemma CoveringAreRevoking(l: Listing, u: seq<Entry>, link: Payload, address: Hash)
    requires Represents(u, l.held) && l.Clean() && l.HasLink(address) && link == l.At(address)
    ensures Sorted([], [], [], [], Items(l, u, ARevocation))
    ensures var r := Covering(Items(l, u, ARevocation), link, address);
      && (r == [] <==> !exists h :: Revokes(l, h, address))
      && (forall i :: 0 <= i < |r| ==> Revokes(l, r[i].hash, address) && l.At(r[i].hash) == r[i].payload)
      && (forall h :: Revokes(l, h, address) ==> exists i :: 0 <= i < |r| && r[i].hash == h)
  {
    ItemsFiled(l, u, ARevocation);
    var all := Items(l, u, ARevocation);
    var r := Covering(all, link, address);
    forall i | 0 <= i < |r|
      ensures Revokes(l, r[i].hash, address) && l.At(r[i].hash) == r[i].payload
    {
      assert r[i] in r;
    }
    forall h | Revokes(l, h, address)
      ensures exists i :: 0 <= i < |r| && r[i].hash == h
    {
      assert HasHash(all, h) && l.ProblemOf(h) == None;
      assert Item(h, l.At(h)) in all;
      assert Item(h, l.At(h)) in r;
    }
    assert r != [] ==> Revokes(l, r[0].hash, address);
  }
}

/**
 * The host and the reader agree about a claim the host ingested, and a claim keeps the receipt of
 * its first arrival.
 */
module IngestTheorems {
  import opened Wrappers
  import opened Statements
  import opened StatementHost
  import opened ClaimIngest
  import Reader
  import ReaderTheorems
  import RecordingReader

  /** An indexed receipt that is still stored verifies under the key it names. */
  ghost predicate Genuine(c: Crypto, host: Host) {
    forall claim :: claim in host.receipts ==>
      var s := ReadStored(c, host.objects, host.receipts[claim]);
      s.Some? && s.value.payload.Receipt? ==> c.verify(s.value, s.value.payload.hostKey)
  }

  ghost predicate Writable(c: Crypto, statements: seq<Signed>) {
    forall i :: 0 <= i < |statements| ==> c.write(statements[i]).Some?
  }

  /** With no failing write, everything is kept under its address, as its canonical bytes. */
  lemma {:induction false} AllStored(c: Crypto, objects: Store, statements: seq<Signed>)
    requires Sound(c) && Filed(c, objects) && Writable(c, statements)
    ensures var (after, hashes) := StoreAll(c, objects, statements, {});
      && Filed(c, after) && SubStore(objects, after) && |hashes| == |statements|
      && (forall i :: 0 <= i < |statements| ==> hashes[i] == Address(c, statements[i]) && hashes[i] in after)
      && (forall i :: 0 <= i < |statements| ==> after[hashes[i]].bytes == c.write(statements[i]).value)
  {
    if statements != [] {
      var n := |statements| - 1;
      AllStored(c, objects, statements[..n]);
    }
  }

  lemma {:induction false} StoringKeeps(c: Crypto, objects: Store, statements: seq<Signed>, failing: set<nat>)
    requires Filed(c, objects)
    ensures Filed(c, StoreAll(c, objects, statements, failing).0)
    ensures SubStore(objects, StoreAll(c, objects, statements, failing).0)
    ensures forall h :: h in StoreAll(c, objects, statements, failing).1 ==>
      h in StoreAll(c, objects, statements, failing).0
  {
    if statements != [] {
      StoringKeeps(c, objects, statements[..|statements| - 1], failing);
    }
  }

  /** What the reader is shown: the kept addresses, with the bytes the host now serves for them. */
  ghost function AsListing(c: Crypto, audio: Audio, objects: Store, hashes: seq<Hash>): Reader.Listing {
    Reader.Listing(c, audio, map h | h in hashes :: if h in objects then Some(objects[h].bytes) else None)
  }

  /** The statements stored for a claim all verify. */
  lemma ToStoreVerifies(c: Crypto, host: Host, claim: Signed, h: Hash, g: Signing, up: Arrival)
    requires Sound(c) && Genuine(c, host) && SignsSoundly(c, g)
    requires claim.payload.Claim? && ClaimProblem(c, claim, up.received) == None
    ensures var all := ToStore(c, host, claim, h, Some(g), up);
      && Writable(c, all) && |all| >= 2 && all[0] == claim && all[1] == ReceiptFor(c, host, h, g, up.receivedAt)
      && all[1].payload.Receipt? && all[1].payload.claim == h && SignatureProblem(c, all[1]) == None
      && (forall i :: 2 <= i < |all| ==> IsLink(all[i].payload) && SignatureProblem(c, all[i]) == None)
      && (forall i :: 2 <= i < |all| ==> claim.payload.deviceCert == Some(Address(c, all[i])))
      && (forall i :: 2 <= i < |all| ==> all[i].payload.deviceKey == claim.payload.deviceKey)
  {
    var all := ToStore(c, host, claim, h, Some(g), up);
    var receipt := ReceiptFor(c, host, h, g, up.receivedAt);
    assert c.verify(receipt, receipt.payload.hostKey);
    var links := CertificateFor(c, claim.payload, up.certificate);
    forall i | 2 <= i < |all|
      ensures all[i] in links
    {
      assert all[i] == links[i - 2];
    }
  }

  /** The reader's own check of one kept statement. */
  lemma ReaderPasses(c: Crypto, audio: Audio, s: Signed)
    requires Sound(c) && c.write(s).Some? && KindOf(s.payload).Some?
    requires if s.payload.Claim? then ClaimProblem(c, s, audio) == None else SignatureProblem(c, s) == None
    ensures Reader.CheckStatement(c, Address(c, s), c.write(s).value, audio) == Reader.Passed(s.payload)
  {
  }

  /** Nothing failed, a receipt is there, and only the link the claim names may be missing. */
  ghost predicate Agrees(l: Reader.Listing, deviceCert: Option<Hash>, kept: seq<Hash>) {
    && (forall h :: h in l.held ==> l.held[h].Some? && l.ProblemOf(h) == None)
    && (exists h :: l.HasReceipt(h))
    && (forall h :: l.Lacks(h) <==> deviceCert == Some(h) && h !in kept)
  }

  /** The bytes sent beside the claim are a link that verifies, has the address it names and is for its device. */
  predicate SendsItsLink(c: Crypto, claim: Payload, sent: Option<Bytes>)
    requires claim.Claim?
  {
    && sent.Some? && c.parse(sent.value).Some?
    && var link := c.parse(sent.value).value;
    && (link.payload.Certificate? || link.payload.Vouch?)
    && c.verify(link, if link.payload.Vouch? then link.payload.hostKey else link.payload.personKey)
    && c.write(link).Some? && claim.deviceCert == Some(c.hash(c.write(link).value))
    && claim.deviceKey == link.payload.deviceKey
  }

  /** Ingest says `verified` exactly when the claim is signed by its device and is about the bytes that came. */
  lemma VerifiedIff(c: Crypto, host: Host, g: Option<Signing>, up: Arrival)
    requires Sound(c)
    ensures Ingested(c, host, g, up).1.claim.ClaimVerified? <==>
      && up.claim.Some? && c.parse(up.claim.value).Some?
      && var claim := c.parse(up.claim.value).value;
      && claim.payload.Claim? && c.verify(claim, claim.payload.deviceKey)
      && claim.payload.blobHash == up.received.hash && claim.payload.size == up.received.size
    ensures Ingested(c, host, g, up).1.claim.Unsigned? <==> up.claim.None?
    ensures !Ingested(c, host, g, up).1.claim.ClaimVerified? ==>
      Ingested(c, host, g, up).0 == host && Ingested(c, host, g, up).1.statements == []
  {
  }

  /** The receipt in an answer is for the claim and verifies under the host's key of now, whatever is indexed. */
  lemma ReceiptIsOwn(c: Crypto, host: Host, g: Signing, up: Arrival)
    requires SignsSoundly(c, g) && Ingested(c, host, Some(g), up).1.claim.ClaimVerified?
    ensures up.claim.Some? && c.parse(up.claim.value).Some? && c.write(c.parse(up.claim.value).value).Some?
    ensures var r := Ingested(c, host, Some(g), up).1.claim.receipt;
      && r.Some? && r.value.payload.Receipt? && c.verify(r.value, g.key)
      && r.value.payload.claim == Address(c, c.parse(up.claim.value).value)
  {
  }

  /** The addresses in an answer are those of the statements whose write succeeded, in order. */
  lemma {:induction false} KeptIff(c: Crypto, objects: Store, statements: seq<Signed>, failing: set<nat>, h: Hash)
    ensures h in StoreAll(c, objects, statements, failing).1 <==>
      exists i :: 0 <= i < |statements| && i !in failing && c.write(statements[i]).Some?
        && Address(c, statements[i]) == h
    ensures h in StoreAll(c, objects, statements, failing).0 <==>
      h in objects || h in StoreAll(c, objects, statements, failing).1
  {
    if statements != [] {
      var n := |statements| - 1;
      KeptIff(c, objects, statements[..n], failing, h);
    }
  }

  /** Without a failing write, the link a claim names is kept exactly when it was sent, or is itself beside it. */
  lemma LinkIsKeptIff(c: Crypto, host: Host, g: Signing, up: Arrival)
    requires Sound(c) && Genuine(c, host) && SignsSoundly(c, g) && up.failing == {}
    requires Ingested(c, host, Some(g), up).1.claim.ClaimVerified?
    ensures var r, claim := Ingested(c, host, Some(g), up).1, c.parse(up.claim.value).value;
      forall h :: claim.payload.deviceCert == Some(h) ==>
        (h in r.statements <==>
          || SendsItsLink(c, claim.payload, up.certificate)
          || h == Address(c, claim) || h == Address(c, r.claim.receipt.value))
  {
    var claim := c.parse(up.claim.value).value;
    var all := ToStore(c, host, claim, Address(c, claim), Some(g), up);
    var links := CertificateFor(c, claim.payload, up.certificate);
    VerifiedIs(c, host, Some(g), up);
    ToStoreVerifies(c, host, claim, Address(c, claim), g, up);
    forall h | claim.payload.deviceCert == Some(h)
      ensures h in StoreAll(c, host.objects, all, {}).1 <==>
        SendsItsLink(c, claim.payload, up.certificate) || h == Address(c, all[0]) || h == Address(c, all[1])
    {
      KeptIff(c, host.objects, all, {}, h);
      if SendsItsLink(c, claim.payload, up.certificate) {
        assert c.parse(up.certificate.value).value in links;
        assert all[2] == links[0];
      }
      if i :| 2 <= i < |all| && Address(c, all[i]) == h {
        assert links[i - 2] in links;
      }
    }
  }

  /**
   * When ingest says `verified` with a receipt and every write succeeded, the reader finds nothing
   * wrong with what was kept. It answers `verified`, or `unavailable` exactly when the claim names a link
   * that was not sent with it, or not one that verifies for its device.
   */
  lemma ReaderAgrees(c: Crypto, host: Host, g: Signing, up: Arrival)
    requires Sound(c) && Filed(c, host.objects) && Genuine(c, host) && SignsSoundly(c, g) && up.failing == {}
    requires Ingested(c, host, Some(g), up).1.claim.ClaimVerified?
    ensures var after, kept := Ingested(c, host, Some(g), up).0, Ingested(c, host, Some(g), up).1.statements;
      Agrees(AsListing(c, up.received, after.objects, kept), c.parse(up.claim.value).value.payload.deviceCert, kept)
    ensures var (after, r) := Ingested(c, host, Some(g), up);
      var claim := c.parse(up.claim.value).value;
      var link := claim.payload.deviceCert;
      ReadsAs(AsListing(c, up.received, after.objects, r.statements),
        link.None? || SendsItsLink(c, claim.payload, up.certificate)
        || link.value == Address(c, claim) || link.value == Address(c, r.claim.receipt.value))
  {
    LinkIsKeptIff(c, host, g, up);
    var claim := c.parse(up.claim.value).value;
    var all := ToStore(c, host, claim, Address(c, claim), Some(g), up);
    var (objects, kept) := StoreAll(c, host.objects, all, {});
    VerifiedIs(c, host, Some(g), up);
    ToStoreVerifies(c, host, claim, Address(c, claim), g, up);
    AllStored(c, host.objects, all);
    KeptAgrees(c, up.received, objects, all, kept, claim);
    AgreeingReads(AsListing(c, up.received, objects, kept), claim.payload.deviceCert, kept);
  }

  predicate LinkIsKept(deviceCert: Option<Hash>, kept: seq<Hash>) {
    deviceCert.None? || deviceCert.value in kept
  }

  /** Whatever the order of the statements, the reader's answer is `verified`, or `unavailable` without the link. */
  ghost predicate ReadsAs(l: Reader.Listing, verified: bool) {
    forall u, r :: RecordingReader.Represents(u, l.held) && RecordingReader.Reads(l, u, r) ==>
      if verified then r.Verified? else r.Unavailable?
  }

  lemma AgreeingReads(l: Reader.Listing, deviceCert: Option<Hash>, kept: seq<Hash>)
    requires Agrees(l, deviceCert, kept)
    ensures ReadsAs(l, LinkIsKept(deviceCert, kept))
  {
    forall u, r | RecordingReader.Represents(u, l.held) && RecordingReader.Reads(l, u, r)
      ensures if LinkIsKept(deviceCert, kept) then r.Verified? else r.Unavailable?
    {
      ReaderTheorems.StateIs(l, u, r);
      if !LinkIsKept(deviceCert, kept) {
        assert l.Lacks(deviceCert.value);
      }
    }
  }

  lemma KeptAgrees(c: Crypto, audio: Audio, objects: Store, all: seq<Signed>, kept: seq<Hash>, claim: Signed)
    requires Sound(c) && Writable(c, all) && |kept| == |all| >= 2 && all[0] == claim && claim.payload.Claim?
    requires forall i :: 0 <= i < |all| ==> kept[i] == Address(c, all[i]) && kept[i] in objects
    requires forall i :: 0 <= i < |all| ==> objects[kept[i]].bytes == c.write(all[i]).value
    requires ClaimProblem(c, claim, audio) == None
    requires all[1].payload.Receipt? && all[1].payload.claim == kept[0] && SignatureProblem(c, all[1]) == None
    requires forall i :: 2 <= i < |all| ==> IsLink(all[i].payload) && SignatureProblem(c, all[i]) == None
    requires forall i :: 2 <= i < |all| ==>
      IsLink(all[i].payload) && claim.payload.deviceCert == Some(kept[i])
        && all[i].payload.deviceKey == claim.payload.deviceKey
    ensures Agrees(AsListing(c, audio, objects, kept), claim.payload.deviceCert, kept)
  {
    KeptPasses(c, audio, objects, all, kept);
    KeptIsBound(AsListing(c, audio, objects, kept), all, kept, claim, c);
  }

  /** The parts of the answer to a claim that verified. */
  lemma VerifiedIs(c: Crypto, host: Host, g: Option<Signing>, up: Arrival)
    requires Sound(c) && Ingested(c, host, g, up).1.claim.ClaimVerified?
    ensures up.claim.Some? && c.parse(up.claim.value).Some?
    ensures var claim := c.parse(up.claim.value).value;
      && ClaimProblem(c, claim, up.received) == None && c.write(claim).Some?
      && var (objects, kept) := StoreAll(c, host.objects, ToStore(c, host, claim, Address(c, claim), g, up),
        up.failing);
      Ingested(c, host, g, up).0.objects == objects && Ingested(c, host, g, up).1.statements == kept
  {
  }

  lemma KeptPasses(c: Crypto, audio: Audio, objects: Store, all: seq<Signed>, kept: seq<Hash>)
    requires Sound(c) && Writable(c, all) && |kept| == |all|
    requires forall i :: 0 <= i < |all| ==> kept[i] == Address(c, all[i]) && kept[i] in objects
    requires forall i :: 0 <= i < |all| ==> objects[kept[i]].bytes == c.write(all[i]).value
    requires forall i :: 0 <= i < |all| ==> KindOf(all[i].payload).Some?
    requires forall i :: 0 <= i < |all| ==>
      if all[i].payload.Claim? then ClaimProblem(c, all[i], audio) == None else SignatureProblem(c, all[i]) == None
    ensures var l := AsListing(c, audio, objects, kept);
      forall i :: 0 <= i < |all| ==> l.Passes(kept[i]) && l.At(kept[i]) == all[i].payload
  {
    forall i | 0 <= i < |all|
      ensures AsListing(c, audio, objects, kept).Passes(kept[i])
      ensures AsListing(c, audio, objects, kept).At(kept[i]) == all[i].payload
    {
      ReaderPasses(c, audio, all[i]);
    }
  }

  lemma KeptIsBound(l: Reader.Listing, all: seq<Signed>, kept: seq<Hash>, claim: Signed, c: Crypto)
    requires l.crypto == c && Writable(c, all) && |kept| == |all| >= 2 && all[0] == claim && claim.payload.Claim?
    requires forall h :: h in l.held <==> h in kept
    requires forall i :: 0 <= i < |all| ==>
      kept[i] == Address(c, all[i]) && l.Passes(kept[i]) && l.At(kept[i]) == all[i].payload
    requires all[1].payload.Receipt? && all[1].payload.claim == kept[0]
    requires forall i :: 2 <= i < |all| ==>
      IsLink(all[i].payload) && claim.payload.deviceCert == Some(kept[i])
        && all[i].payload.deviceKey == claim.payload.deviceKey
    ensures Agrees(l, claim.payload.deviceCert, kept)
  {
    assert l.HasReceipt(kept[1]) && l.HasClaim(kept[0]);
    forall h | l.HasClaim(h)
      ensures h == kept[0]
    {
      var i :| 0 <= i < |kept| && kept[i] == h;
      assert l.At(kept[i]) == all[i].payload;
    }
    forall h | h in l.held
      ensures l.held[h].Some? && l.ProblemOf(h) == None
    {
      var i :| 0 <= i < |kept| && kept[i] == h;
      assert l.At(kept[i]) == all[i].payload;
      if i >= 2 {
        assert l.Names(kept[0], h);
      }
    }
    forall h
      ensures l.Lacks(h) <==> claim.payload.deviceCert == Some(h) && h !in kept
    {
      assert l.Names(kept[0], h) <==> claim.payload.deviceCert == Some(h);
    }
  }

  // ---- One receipt for each claim ----

  /** No deletion and no failing write. */
  predicate Smooth(up: Arrival) {
    up.failing == {} && !up.indexFails
  }

  /** A receipt the host can find stays the one it finds, whatever is uploaded next. */
  lemma ReceiptStays(c: Crypto, host: Host, g: Signing, up: Arrival, claim: Hash)
    requires Sound(c) && Filed(c, host.objects) && ReadOwnReceipt(c, host, claim, g).Some?
    ensures var after := Ingested(c, host, Some(g), up).0;
      Filed(c, after.objects) && ReadOwnReceipt(c, after, claim, g) == ReadOwnReceipt(c, host, claim, g)
  {
    if Ingested(c, host, Some(g), up).1.claim.ClaimVerified? {
      var s := c.parse(up.claim.value).value;
      StoringKeeps(c, host.objects, ToStore(c, host, s, Address(c, s), Some(g), up), up.failing);
    }
  }

  /** The receipt in the answer is the one the host finds from then on. */
  lemma AnswerIsFound(c: Crypto, host: Host, g: Signing, up: Arrival)
    requires Sound(c) && Filed(c, host.objects) && Genuine(c, host) && SignsSoundly(c, g) && Smooth(up)
    requires Ingested(c, host, Some(g), up).1.claim.ClaimVerified?
    ensures var (after, r) := Ingested(c, host, Some(g), up);
      Filed(c, after.objects)
        && ReadOwnReceipt(c, after, Address(c, c.parse(up.claim.value).value), g) == r.claim.receipt
  {
    var s := c.parse(up.claim.value).value;
    var h := Address(c, s);
    if ReadOwnReceipt(c, host, h, g).Some? {
      ReceiptStays(c, host, g, up, h);
    } else {
      var all := ToStore(c, host, s, h, Some(g), up);
      ToStoreVerifies(c, host, s, h, g, up);
      AllStored(c, host.objects, all);
      var (objects, kept) := StoreAll(c, host.objects, all, {});
      assert kept[1] == Address(c, all[1]) && kept[1] in objects;
      assert c.parse(objects[kept[1]].bytes) == Some(all[1]);
    }
  }

  /** Every indexed receipt is in the store, as it is unless something was deleted. */
  predicate Held(host: Host) {
    forall claim :: claim in host.receipts ==> host.receipts[claim] in host.objects
  }

  /** A host that never lost anything it indexed, and indexed only receipts that verify. */
  ghost predicate Sane(c: Crypto, host: Host) {
    Filed(c, host.objects) && Held(host) && Genuine(c, host)
  }

  lemma SaneStays(c: Crypto, host: Host, g: Signing, up: Arrival)
    requires Sound(c) && Sane(c, host) && SignsSoundly(c, g)
    ensures Sane(c, Ingested(c, host, Some(g), up).0)
  {
    var (after, r) := Ingested(c, host, Some(g), up);
    if r.claim.ClaimVerified? {
      var s := c.parse(up.claim.value).value;
      var h := Address(c, s);
      VerifiedIs(c, host, Some(g), up);
      StoringKeeps(c, host.objects, ToStore(c, host, s, h, Some(g), up), up.failing);
      forall claim | claim in after.receipts
        ensures after.receipts[claim] in after.objects
        ensures var t := ReadStored(c, after.objects, after.receipts[claim]);
          t.Some? && t.value.payload.Receipt? ==> c.verify(t.value, t.value.payload.hostKey)
      {
        if claim !in host.receipts || after.receipts[claim] != host.receipts[claim] {
          ToStoreVerifies(c, host, s, h, g, up);
          StoredAsWritten(c, after.objects, ReceiptFor(c, host, h, g, up.receivedAt));
        }
      }
    }
  }

  lemma StoredAsWritten(c: Crypto, objects: Store, s: Signed)
    requires Sound(c) && Filed(c, objects) && c.write(s).Some? && Address(c, s) in objects
    ensures ReadStored(c, objects, Address(c, s)) == Some(s)
  {
  }

  /** The host after some uploads, all under one key. */
  ghost function Run(c: Crypto, host: Host, g: Signing, ups: seq<Arrival>): Host {
    if ups == [] then host else Ingested(c, Run(c, host, g, ups[..|ups| - 1]), Some(g), ups[|ups| - 1]).0
  }

  lemma RunNext(c: Crypto, host: Host, g: Signing, ups: seq<Arrival>)
    requires ups != []
    ensures Run(c, host, g, ups) == Ingested(c, Run(c, host, g, ups[..|ups| - 1]), Some(g), ups[|ups| - 1]).0
  {
  }

  /** The answer to one of the uploads. */
  ghost function Answer(c: Crypto, host: Host, g: Signing, ups: seq<Arrival>, i: nat): Result
    requires i < |ups|
  {
    Ingested(c, Run(c, host, g, ups[..i]), Some(g), ups[i]).1
  }

  lemma {:induction false} RunIsSane(c: Crypto, host: Host, g: Signing, ups: seq<Arrival>)
    requires Sound(c) && Sane(c, host) && SignsSoundly(c, g)
    ensures Sane(c, Run(c, host, g, ups))
  {
    if ups != [] {
      RunIsSane(c, host, g, ups[..|ups| - 1]);
      SaneStays(c, Run(c, host, g, ups[..|ups| - 1]), g, ups[|ups| - 1]);
    }
  }

  lemma {:induction false} ReceiptStaysOverRun(c: Crypto, host: Host, g: Signing, ups: seq<Arrival>, i: nat,
      claim: Hash)
    requires Sound(c) && Sane(c, host) && SignsSoundly(c, g) && i <= |ups|
    requires ReadOwnReceipt(c, Run(c, host, g, ups[..i]), claim, g).Some?
    ensures ReadOwnReceipt(c, Run(c, host, g, ups), claim, g) == ReadOwnReceipt(c, Run(c, host, g, ups[..i]), claim, g)
    decreases |ups|
  {
    if i == |ups| {
      assert ups[..i] == ups;
    } else {
      var n := |ups| - 1;
      var mid := Run(c, host, g, ups[..n]);
      assert ups[..n][..i] == ups[..i];
      ReceiptStaysOverRun(c, host, g, ups[..n], i, claim);
      RunIsSane(c, host, g, ups[..n]);
      ReceiptStays(c, mid, g, ups[n], claim);
      RunNext(c, host, g, ups);
    }
  }

  /** The claim an upload brings, by its address. */
  function ClaimOf(c: Crypto, up: Arrival): Option<Hash> {
    if up.claim.None? then None
    else
      match c.parse(up.claim.value)
      case None => None
      case Some(s) => if c.write(s).Some? then Some(Address(c, s)) else None
  }

  /** Of any two uploads of one claim that verify, the second gets the receipt of the first. */
  lemma SameReceipt(c: Crypto, host: Host, g: Signing, ups: seq<Arrival>, i: nat, j: nat)
    requires Sound(c) && Sane(c, host) && SignsSoundly(c, g) && i < j < |ups| && Smooth(ups[i])
    requires Answer(c, host, g, ups, i).claim.ClaimVerified? && Answer(c, host, g, ups, j).claim.ClaimVerified?
    requires ClaimOf(c, ups[i]) == ClaimOf(c, ups[j])
    ensures Answer(c, host, g, ups, j).claim == Answer(c, host, g, ups, i).claim
  {
    var before := Run(c, host, g, ups[..i]);
    RunIsSane(c, host, g, ups[..i]);
    VerifiedIs(c, before, Some(g), ups[i]);
    VerifiedIs(c, Run(c, host, g, ups[..j]), Some(g), ups[j]);
    AnswerIsFound(c, before, g, ups[i]);
    assert ups[..j][..i + 1] == ups[..i + 1] && ups[..i + 1][..i] == ups[..i];
    ReceiptStaysOverRun(c, host, g, ups[..j], i + 1, ClaimOf(c, ups[i]).value);
  }

  /** A claim nobody uploaded before is not in the index. */
  lemma {:induction false} NotIndexedBefore(c: Crypto, host: Host, g: Signing, ups: seq<Arrival>, claim: Hash)
    requires claim !in host.receipts && forall k :: 0 <= k < |ups| ==> ClaimOf(c, ups[k]) != Some(claim)
    ensures claim !in Run(c, host, g, ups).receipts
  {
    if ups != [] {
      NotIndexedBefore(c, host, g, ups[..|ups| - 1], claim);
    }
  }

  /** The receipt says when the claim first arrived. */
  lemma ReceiptIsOfFirstArrival(c: Crypto, host: Host, g: Signing, ups: seq<Arrival>, i: nat)
    requires Sound(c) && SignsSoundly(c, g) && i < |ups| && Answer(c, host, g, ups, i).claim.ClaimVerified?
    requires ClaimOf(c, ups[i]).Some? && ClaimOf(c, ups[i]).value !in host.receipts
    requires forall k :: 0 <= k < i ==> ClaimOf(c, ups[k]) != ClaimOf(c, ups[i])
    ensures var r := Answer(c, host, g, ups, i).claim.receipt;
      r.Some? && r.value.payload == Receipt(ClaimOf(c, ups[i]).value, ups[i].receivedAt, g.key, 0)
  {
    NotIndexedBefore(c, host, g, ups[..i], ClaimOf(c, ups[i]).value);
  }
}

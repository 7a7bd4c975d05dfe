/**
 * What the host does with the claim that comes with an upload (`claimIngest.ts`): check it,
 * countersign it once, and store the claim, the receipt and the device link beside the audio.
 */
module ClaimIngest {
  import opened Wrappers
  import opened Statements
  import opened StatementHost

  /** The host's key pair. */
  datatype Signing = Signing(key: Key, sign: Payload -> Signed)

  /** What the key signs verifies under it. */
  ghost predicate SignsSoundly(c: Crypto, g: Signing) {
    forall p :: g.sign(p).payload == p && c.verify(g.sign(p), g.key)
  }

  /** The blob store, and its index from a claim to the receipt the host signed for it. */
  datatype Host = Host(objects: Store, receipts: map<Hash, Hash>)

  /** One upload: what came with the audio, the clock, and which store writes fail. */
  datatype Arrival = Arrival(claim: Option<Bytes>, received: Audio, certificate: Option<Bytes>, receivedAt: string,
    failing: set<nat>, indexFails: bool)

  datatype Verification = Unsigned | Unverified(problem: Problem) | ClaimVerified(receipt: Option<Signed>)

  /** `statements` are the store hashes of what was kept. */
  datatype Result = Result(claim: Verification, statements: seq<Hash>)

  /** The address of a statement that can be written. */
  function Address(c: Crypto, s: Signed): Hash
    requires c.write(s).Some?
  {
    c.hash(c.write(s).value)
  }

  /** `readStoredStatement`. */
  function ReadStored(c: Crypto, objects: Store, h: Hash): Option<Signed> {
    if h in objects then c.parse(objects[h].bytes) else None
  }

  /** `readOwnReceipt`: the indexed receipt, if it is still stored and is the current key's. */
  function ReadOwnReceipt(c: Crypto, host: Host, claimHash: Hash, g: Signing): Option<Signed> {
    if claimHash !in host.receipts then None
    else
      match ReadStored(c, host.objects, host.receipts[claimHash])
      case None => None
      case Some(s) =>
        if s.payload.Receipt? && s.payload.claim == claimHash && c.verify(s, g.key) then Some(s) else None
  }

  /** `receiptFor`: the one signed before, or a new one. */
  function ReceiptFor(c: Crypto, host: Host, claimHash: Hash, g: Signing, receivedAt: string): Signed {
    match ReadOwnReceipt(c, host, claimHash, g)
    case Some(s) => s
    case None => g.sign(Receipt(claimHash, receivedAt, g.key, 0))
  }

  /** The link is the one the claim names, and is for its device key. */
  predicate Fits(c: Crypto, claim: Payload, link: Signed)
    requires claim.Claim? && IsLink(link.payload) && c.write(link).Some?
  {
    claim.deviceCert == Some(Address(c, link)) && claim.deviceKey == link.payload.deviceKey
  }

  /**
   * `certificateFor`: the link that was sent, exactly when it is a certificate its person signed or a vouch
   * its host signed, at the address the claim names and for its device key.
   */
  function CertificateFor(c: Crypto, claim: Payload, encoded: Option<Bytes>): (r: seq<Signed>)
    requires claim.Claim?
    ensures |r| <= 1
    ensures forall s :: s in r <==>
      && encoded.Some? && c.parse(encoded.value) == Some(s)
      && (s.payload.Certificate? || s.payload.Vouch?)
      && c.verify(s, if s.payload.Vouch? then s.payload.hostKey else s.payload.personKey)
      && c.write(s).Some? && claim.deviceCert == Some(c.hash(c.write(s).value))
      && claim.deviceKey == s.payload.deviceKey
  {
    if encoded.None? || claim.deviceCert.None? then []
    else
      match c.parse(encoded.value)
      case None => []
      case Some(s) =>
        if IsLink(s.payload) && SignatureProblem(c, s) == None && c.write(s).Some? && Fits(c, claim, s) then [s] else []
  }

  /** Stores the statements in turn, skipping those whose write fails; the hashes of those kept. */
  function StoreAll(c: Crypto, objects: Store, statements: seq<Signed>, failing: set<nat>): (Store, seq<Hash>) {
    if statements == [] then (objects, [])
    else
      var n := |statements| - 1;
      var (before, hashes) := StoreAll(c, objects, statements[..n], failing);
      var bytes := c.write(statements[n]);
      if n in failing || bytes.None? then (before, hashes)
      else (Ingest(c, before, bytes.value, StatementMime), hashes + [c.hash(bytes.value)])
  }

  /** What the host stores for a claim that verified. */
  function ToStore(c: Crypto, host: Host, claim: Signed, claimHash: Hash, g: Option<Signing>, up: Arrival): seq<Signed>
    requires claim.payload.Claim?
  {
    [claim] + (if g.None? then [] else [ReceiptFor(c, host, claimHash, g.value, up.receivedAt)])
    + CertificateFor(c, claim.payload, up.certificate)
  }

  /** The host after an upload, and the answer. `g` is `None` when the host could not load its key. */
  function Ingested(c: Crypto, host: Host, g: Option<Signing>, up: Arrival): (Host, Result) {
    if up.claim.None? then (host, Result(Unsigned, []))
    else if c.parse(up.claim.value).None? then (host, Result(Unverified(Malformed), []))
    else
      var claim := c.parse(up.claim.value).value;
      match ClaimProblem(c, claim, up.received)
      case Some(p) => (host, Result(Unverified(p), []))
      case None =>
        if c.write(claim).None? then (host, Result(Unverified(Malformed), []))
        else
          var h := Address(c, claim);
          var (objects, hashes) := StoreAll(c, host.objects, ToStore(c, host, claim, h, g, up), up.failing);
          if g.None? then (host.(objects := objects), Result(ClaimVerified(None), hashes))
          else
            var receipt := ReceiptFor(c, host, h, g.value, up.receivedAt);
            var isNew := ReadOwnReceipt(c, host, h, g.value).None?;
            var index :=
              if isNew && c.write(receipt).Some? && Address(c, receipt) in hashes && !up.indexFails
              then host.receipts[h := Address(c, receipt)] else host.receipts;
            (Host(objects, index), Result(ClaimVerified(Some(receipt)), hashes))
  }

  /** A host that ingests claims one at a time, as the per-claim lock makes it. */
  class IngestDesk {
    const crypto: Crypto
    var objects: Store
    var receipts: map<Hash, Hash>

    constructor (crypto: Crypto, objects: Store, receipts: map<Hash, Hash>)
      ensures this.crypto == crypto && this.objects == objects && this.receipts == receipts
    {
      this.crypto, this.objects, this.receipts := crypto, objects, receipts;
    }

    /** `storeStatements`. */
    method StoreStatements(statements: seq<Signed>, failing: set<nat>) returns (hashes: seq<Hash>)
      modifies this`objects
      ensures (objects, hashes) == StoreAll(crypto, old(objects), statements, failing)
    {
      hashes := [];
      for i := 0 to |statements|
        invariant (objects, hashes) == StoreAll(crypto, old(objects), statements[..i], failing)
      {
        assert statements[..i + 1][..i] == statements[..i];
        var bytes := crypto.write(statements[i]);
        if i !in failing && bytes.Some? {
          objects := Ingest(crypto, objects, bytes.value, StatementMime);
          hashes := hashes + [crypto.hash(bytes.value)];
        }
      }
      assert statements[..|statements|] == statements;
    }

    /** `verifyClaimOnIngest`, with `receiptAndStore`. */
    method VerifyClaimOnIngest(g: Option<Signing>, up: Arrival) returns (r: Result)
      modifies this
      ensures (Host(objects, receipts), r) == Ingested(crypto, Host(old(objects), old(receipts)), g, up)
    {
      ghost var host := Host(objects, receipts);
      if up.claim.None? {
        return Result(Unsigned, []);
      }
      var signed := crypto.parse(up.claim.value);
      if signed.None? {
        return Result(Unverified(Malformed), []);
      }
      var claim := signed.value;
      var problem := ClaimProblem(crypto, claim, up.received);
      if problem.Some? {
        return Result(Unverified(problem.value), []);
      }
      if crypto.write(claim).None? {
        return Result(Unverified(Malformed), []);
      }
      var claimHash := Address(crypto, claim);
      var certificate := CertificateFor(crypto, claim.payload, up.certificate);
      if g.None? {
        assert [claim] + [] + certificate == [claim] + certificate;
        var kept := StoreStatements([claim] + certificate, up.failing);
        return Result(ClaimVerified(None), kept);
      }
      var existing := ReadOwnReceipt(crypto, Host(objects, receipts), claimHash, g.value);
      var receipt := if existing.Some? then existing.value
        else g.value.sign(Receipt(claimHash, up.receivedAt, g.value.key, 0));
      var hashes := StoreStatements([claim] + [receipt] + certificate, up.failing);
      if existing.None? {
        IndexReceipt(claimHash, receipt, hashes, up.indexFails);
      }
      return Result(ClaimVerified(Some(receipt)), hashes);
    }

    /** `indexReceipt`: only once the receipt is in the store. */
    method IndexReceipt(claimHash: Hash, receipt: Signed, stored: seq<Hash>, fails: bool)
      modifies this`receipts
      ensures receipts == if crypto.write(receipt).Some? && Address(crypto, receipt) in stored && !fails
        then old(receipts)[claimHash := Address(crypto, receipt)] else old(receipts)
    {
      if crypto.write(receipt).Some? && Address(crypto, receipt) in stored && !fails {
        receipts := receipts[claimHash := Address(crypto, receipt)];
      }
    }
  }
}

/**
 * Signed statements about recordings (`types.ts`), and the checks of a single statement that the
 * reader and the hosts share. A statement is taken as what its canonical text means.
 */
module Statements {
  import opened Wrappers

  type Hash = string
  type Key = string
  type Bytes = seq<nat>

  datatype Kind = AClaim | AReceipt | ASession | ALink | ARevocation
  datatype Signer = ByPerson | ByHost
  datatype Reason = Lost | Retired | WrongPerson
  datatype Method = Operator | Pin
  datatype Span = Span(joinedAt: string, leftAt: string)
  datatype Device = Device(deviceKey: Key, name: Option<string>, spans: seq<Span>)

  /**
   * `Misshapen` has a known type and the wrong fields, and still shows the two addresses it may have.
   * `Other` has a type this version does not know, or none. `rest` tells apart payloads that differ in
   * further members only, which no check reads and the canonical text keeps; 0 is to have none.
   */
  datatype Payload =
    | Claim(blobHash: Hash, size: int, mimeType: string, startedAt: string, endedAt: string,
        sessionId: string, deviceKey: Key, deviceCert: Option<Hash>, rest: nat)
    | Receipt(claim: Hash, receivedAt: string, hostKey: Key, rest: nat)
    | Session(sessionId: string, openedAt: string, closedAt: string, devices: seq<Device>,
        claims: seq<Hash>, hostKey: Key, rest: nat)
    | Certificate(personKey: Key, deviceKey: Key, deviceLabel: string, issuedAt: string, rest: nat)
    | Vouch(hostKey: Key, hostLabel: string, personKey: Key, personName: string, deviceKey: Key,
        deviceLabel: string, method_: Method, firstCertificate: Hash, vouchedAt: string, rest: nat)
    | Revocation(signerKey: Key, signedBy: Signer, deviceKey: Key, deviceLink: Hash, reason: Reason,
        revokedAt: string, rest: nat)
    | Misshapen(kind: Kind, blob: Option<Hash>, link: Option<Hash>, rest: nat)
    | Other(rest: nat)

  datatype Signed = Signed(payload: Payload, signature: string)

  /**
   * The foreign calls: sha-256, Ed25519 verification, parsing and writing a signed statement, and
   * `Date.parse` (`None` for NaN).
   */
  datatype Crypto = Crypto(
    hash: Bytes -> Hash,
    parse: Bytes -> Option<Signed>,
    write: Signed -> Option<Bytes>,
    verify: (Signed, Key) -> bool,
    time: string -> Option<int>)

  /** The hash is injective, parsing undoes writing, and only what can be written verifies. */
  ghost predicate Sound(c: Crypto) {
    && (forall a, b :: c.hash(a) == c.hash(b) ==> a == b)
    && (forall s :: c.write(s).Some? ==> c.parse(c.write(s).value) == Some(s))
    && (forall s, k :: c.verify(s, k) ==> c.write(s).Some?)
  }

  /** A recording's own descriptor, or what a store says about an object. */
  datatype Audio = Audio(hash: Hash, size: int)

  datatype Problem =
    | AddressMismatch | NotCanonical | Malformed | BadSignature | HashMismatch | SizeMismatch
    | ClaimNotListed | SessionMismatch | ClaimNotInSession | CertificateNotClaimed
    | CertificateDeviceMismatch | RevocationNotClaimed | RevocationNotPermitted
    | UnknownType | AudioMissing | ClaimMissing | CertificateMismatch | CertificateMissing

  function KindOf(p: Payload): Option<Kind> {
    match p
    case Claim(_, _, _, _, _, _, _, _, _) => Some(AClaim)
    case Receipt(_, _, _, _) => Some(AReceipt)
    case Session(_, _, _, _, _, _, _) => Some(ASession)
    case Certificate(_, _, _, _, _) => Some(ALink)
    case Vouch(_, _, _, _, _, _, _, _, _, _) => Some(ALink)
    case Revocation(_, _, _, _, _, _, _) => Some(ARevocation)
    case Misshapen(kind, _, _, _) => Some(kind)
    case Other(_) => None
  }

  predicate IsLink(p: Payload) {
    p.Certificate? || p.Vouch?
  }

  /** `checkRecordingClaim`. */
  function ClaimProblem(c: Crypto, s: Signed, received: Audio): Option<Problem> {
    if !s.payload.Claim? then Some(Malformed)
    else if s.payload.blobHash != received.hash then Some(HashMismatch)
    else if s.payload.size != received.size then Some(SizeMismatch)
    else if !c.verify(s, s.payload.deviceKey) then Some(BadSignature)
    else None
  }

  /** The key a statement other than a claim has to be signed by. */
  function SignerOf(p: Payload): Option<Key> {
    match p
    case Receipt(_, _, hostKey, _) => Some(hostKey)
    case Session(_, _, _, _, _, hostKey, _) => Some(hostKey)
    case Certificate(personKey, _, _, _, _) => Some(personKey)
    case Vouch(hostKey, _, _, _, _, _, _, _, _, _) => Some(hostKey)
    case Revocation(signerKey, _, _, _, _, _, _) => Some(signerKey)
    case _ => None
  }

  /** `checkHostReceipt`, `checkSessionRecord`, `checkDeviceLink` and `checkDeviceRevocation`. */
  function SignatureProblem(c: Crypto, s: Signed): Option<Problem> {
    match SignerOf(s.payload)
    case None => Some(Malformed)
    case Some(key) => if c.verify(s, key) then None else Some(BadSignature)
  }

  /** Who may withdraw a certificate or vouch: the person it names, or the host that vouched. */
  predicate RevocationCovers(revocation: Payload, link: Payload, address: Hash)
    requires revocation.Revocation? && IsLink(link)
  {
    && revocation.deviceLink == address
    && revocation.deviceKey == link.deviceKey
    && (if revocation.signedBy == ByPerson then revocation.signerKey == link.personKey
        else link.Vouch? && revocation.signerKey == link.hostKey)
  }
}

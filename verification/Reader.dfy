/**
 * What a recording's listed statements prove (`recordingProvenance.ts`). The specification speaks
 * of the statements as a map from address to bytes, so it has no order; `VerifyRecording` is the
 * code's sequence of passes over lists.
 */
module Reader {
  import opened Wrappers
  import opened Statements

  datatype Checked = Passed(payload: Payload) | Unknown | Bad(problem: Problem)

  /** `checkStatement`: one statement on its own, against the recording's audio. */
  function CheckStatement(c: Crypto, hash: Hash, bytes: Bytes, audio: Audio): Checked {
    if c.hash(bytes) != hash then Bad(AddressMismatch)
    else
      match c.parse(bytes)
      case None => Bad(Malformed)
      case Some(s) =>
        if c.write(s) != Some(bytes) then Bad(NotCanonical)
        else if KindOf(s.payload) == None then Unknown
        else
          var problem := if KindOf(s.payload) == Some(AClaim) then ClaimProblem(c, s, audio)
            else SignatureProblem(c, s);
          match problem
          case None => Passed(s.payload)
          case Some(p) => Bad(p)
  }

  /** The statements of one recording: what a host served for each listed address. */
  datatype Listing = Listing(crypto: Crypto, audio: Audio, held: map<Hash, Option<Bytes>>) {

    predicate Passes(h: Hash) {
      h in held && held[h].Some? && CheckStatement(crypto, h, held[h].value, audio).Passed?
    }

    function At(h: Hash): Payload
      requires Passes(h)
    {
      CheckStatement(crypto, h, held[h].value, audio).payload
    }

    predicate HasClaim(h: Hash) {
      Passes(h) && At(h).Claim?
    }

    predicate HasReceipt(h: Hash) {
      Passes(h) && At(h).Receipt?
    }

    predicate HasLink(h: Hash) {
      Passes(h) && IsLink(At(h))
    }

    predicate HasRevocation(h: Hash) {
      Passes(h) && At(h).Revocation?
    }

    /** A passing claim that names a certificate or vouch. */
    predicate Names(claim: Hash, link: Hash) {
      HasClaim(claim) && At(claim).deviceCert == Some(link)
    }

    predicate InSession(claim: Hash, sessionId: string) {
      HasClaim(claim) && At(claim).sessionId == sessionId
    }

    ghost function SessionProblem(record: Payload): Option<Problem>
      requires record.Session?
    {
      if !exists h :: h in held && InSession(h, record.sessionId) then Some(SessionMismatch)
      else if !exists h :: h in held && InSession(h, record.sessionId) && h in record.claims
        then Some(ClaimNotInSession)
      else None
    }

    ghost function LinkProblem(link: Payload, address: Hash): Option<Problem>
      requires IsLink(link)
    {
      if !exists h :: h in held && Names(h, address) then Some(CertificateNotClaimed)
      else if exists h :: h in held && Names(h, address) && At(h).deviceKey != link.deviceKey
        then Some(CertificateDeviceMismatch)
      else None
    }

    function RevocationProblem(revocation: Payload): Option<Problem>
      requires revocation.Revocation?
    {
      if !HasLink(revocation.deviceLink) then Some(RevocationNotClaimed)
      else if !RevocationCovers(revocation, At(revocation.deviceLink), revocation.deviceLink)
        then Some(RevocationNotPermitted)
      else None
    }

    /** What is wrong with one listed statement, next to all the others. */
    ghost function ProblemOf(h: Hash): Option<Problem> {
      if h !in held || held[h].None? then None
      else
        match CheckStatement(crypto, h, held[h].value, audio)
        case Bad(p) => Some(p)
        case Unknown => None
        case Passed(p) =>
          if p.Receipt? then (if HasClaim(p.claim) then None else Some(ClaimNotListed))
          else if p.Session? then SessionProblem(p)
          else if IsLink(p) then LinkProblem(p, h)
          else if p.Revocation? then RevocationProblem(p)
          else None
    }

    /** Listed and not served, or named by a passing claim and not listed. */
    predicate Lacks(h: Hash) {
      (h in held && held[h].None?) || (h !in held && exists claim :: claim in held && Names(claim, h))
    }

    /** Nothing failed and nothing is missing. */
    ghost predicate Clean() {
      (forall h :: h in held ==> ProblemOf(h) == None) && forall h :: !Lacks(h)
    }
  }
}

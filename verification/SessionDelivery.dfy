/**
 * Listing a signed session record on the recordings it covers (`sessionDelivery.ts`), and what that
 * does to what a reader finds.
 */
module SessionDelivery {
  import opened Wrappers
  import opened Statements
  import opened Reader
  import opened RecordingReader
  import opened ReaderTheorems

  /** A recording's document. */
  class RecordingDoc {
    var statements: seq<Hash>

    constructor (statements: seq<Hash>)
      ensures this.statements == statements
    {
      this.statements := statements;
    }
  }

  predicate Covers(claims: set<Hash>, statements: seq<Hash>) {
    exists i :: 0 <= i < |statements| && statements[i] in claims
  }

  function Extended(claims: set<Hash>, record: Hash, statements: seq<Hash>): seq<Hash> {
    if Covers(claims, statements) && record !in statements then statements + [record] else statements
  }

  /** Places in ascending order, all before one. */
  predicate InOrder(places: seq<nat>, end: nat) {
    && (forall i, j :: 0 <= i < j < |places| ==> places[i] < places[j])
    && forall i :: 0 <= i < |places| ==> places[i] < end
  }

  lemma NextInOrder(places: seq<nat>, next: nat)
    requires InOrder(places, next)
    ensures InOrder(places, next + 1) && InOrder(places + [next], next + 1)
  {
  }

  /**
   * `listSessionRecord`: `docs` are what the root document's recordings resolve to, `null` for one
   * that does not. The same document may come twice.
   */
  method ListSessionRecord(docs: seq<RecordingDoc?>, claims: set<Hash>, record: Hash) returns (listed: seq<nat>)
    modifies docs
    ensures forall i :: 0 <= i < |docs| && docs[i] != null ==>
      docs[i].statements == Extended(claims, record, old(docs[i].statements))
    ensures forall i :: i in listed <==> 0 <= i < |docs| && docs[i] != null && Covers(claims, old(docs[i].statements))
    ensures InOrder(listed, |docs|)
  {
    listed := [];
    if claims == {} {
      return;
    }
    for i := 0 to |docs|
      invariant forall d: RecordingDoc :: d in docs ==>
        d.statements == if d in docs[..i] then Extended(claims, record, old(d.statements)) else old(d.statements)
      invariant forall k :: k in listed <==> 0 <= k < i && docs[k] != null && Covers(claims, old(docs[k].statements))
      invariant InOrder(listed, i)
    {
      assert docs[..i + 1] == docs[..i] + [docs[i]];
      NextInOrder(listed, i);
      if docs[i] != null {
        CoversMore(claims, record, old(docs[i].statements));
        var covered := ListOn(docs[i], claims, record);
        if covered {
          listed := listed + [i];
        }
      }
    }
    assert docs[..|docs|] == docs;
  }

  method ListOn(doc: RecordingDoc, claims: set<Hash>, record: Hash) returns (covered: bool)
    modifies doc
    ensures doc.statements == Extended(claims, record, old(doc.statements))
    ensures covered == Covers(claims, old(doc.statements))
  {
    covered := Covers(claims, doc.statements);
    if covered && record !in doc.statements {
      doc.statements := doc.statements + [record];
    }
  }

  /**
   * A list with one of the claims holds the record afterwards, at its end unless it had it; another stays as it
   * is, and none loses anything.
   */
  lemma ExtendedIs(claims: set<Hash>, record: Hash, statements: seq<Hash>)
    ensures var r := Extended(claims, record, statements);
      && statements <= r
      && ((exists h :: h in claims && h in statements) ==>
        record in r && r == statements + if record in statements then [] else [record])
      && ((forall h :: h in claims ==> h !in statements) ==> r == statements)
  {
    if h :| h in claims && h in statements {
      var i :| 0 <= i < |statements| && statements[i] == h;
      assert Covers(claims, statements);
      assert record !in statements ==> (statements + [record])[|statements|] == record;
    }
  }

  lemma CoversMore(claims: set<Hash>, record: Hash, statements: seq<Hash>)
    ensures Covers(claims, Extended(claims, record, statements)) <==> Covers(claims, statements)
    ensures Extended(claims, record, Extended(claims, record, statements)) == Extended(claims, record, statements)
  {
    if i :| 0 <= i < |statements| && statements[i] in claims {
      assert Extended(claims, record, statements)[i] == statements[i];
    }
  }

  // ---- What the reader finds ----

  predicate IsNewSession(l: Listing, e: Entry) {
    e.hash !in l.held && With(l, e).Passes(e.hash) && With(l, e).At(e.hash).Session?
  }

  lemma SessionKeepsProblems(l: Listing, e: Entry, h: Hash)
    requires IsNewSession(l, e) && h in l.held
    ensures With(l, e).ProblemOf(h) == l.ProblemOf(h)
  {
    var m := With(l, e);
    forall k
      ensures m.HasClaim(k) <==> l.HasClaim(k)
      ensures m.HasLink(k) <==> l.HasLink(k)
      ensures forall link :: m.Names(k, link) <==> l.Names(k, link)
      ensures forall session :: m.InSession(k, session) <==> l.InSession(k, session)
      ensures l.Passes(k) ==> m.Passes(k) && m.At(k) == l.At(k)
    {
    }
    if l.Passes(h) && l.At(h).Session? {
      assert m.SessionProblem(l.At(h)) == l.SessionProblem(l.At(h));
    } else if l.HasLink(h) {
      assert m.LinkProblem(l.At(h), h) == l.LinkProblem(l.At(h), h);
    }
  }

  /** A record on a clean recording keeps it clean exactly when it lists one of its claims of that session. */
  lemma RecordKeepsCleanIff(l: Listing, e: Entry)
    requires l.Clean() && IsNewSession(l, e)
    ensures var record := With(l, e).At(e.hash);
      With(l, e).Clean() <==> exists h :: h in l.held && l.InSession(h, record.sessionId) && h in record.claims
  {
    var m := With(l, e);
    var record := m.At(e.hash);
    forall h
      ensures m.InSession(h, record.sessionId) <==> l.InSession(h, record.sessionId)
      ensures m.Names(e.hash, h) == false
      ensures forall k :: k != e.hash ==> (m.Names(k, h) <==> l.Names(k, h))
    {
    }
    assert m.ProblemOf(e.hash) == m.SessionProblem(record);
    if h :| h in l.held && l.InSession(h, record.sessionId) && h in record.claims {
      assert h in m.held && m.InSession(h, record.sessionId);
      forall k | k in m.held
        ensures m.ProblemOf(k) == None
      {
        if k != e.hash {
          SessionKeepsProblems(l, e, k);
        }
      }
      forall k
        ensures !m.Lacks(k)
      {
        assert !l.Lacks(k);
      }
    } else {
      assert m.SessionProblem(record) != None;
    }
  }

  /** A host verified the claim at this address for this session. */
  ghost predicate AcceptedFor(c: Crypto, claim: Hash, sessionId: string) {
    exists bytes :: c.hash(bytes) == claim && c.parse(bytes).Some?
      && c.parse(bytes).value.payload.Claim? && c.parse(bytes).value.payload.sessionId == sessionId
  }

  /**
   * When every claim a record lists was accepted for its session, each clean recording that lists one
   * of them stays clean with the record and shows a session.
   */
  lemma DeliveryKeepsClean(l: Listing, u: seq<Entry>, e: Entry)
    requires Sound(l.crypto) && Represents(u, l.held) && l.Clean() && IsNewSession(l, e)
    requires forall claim :: claim in With(l, e).At(e.hash).claims ==>
      AcceptedFor(l.crypto, claim, With(l, e).At(e.hash).sessionId)
    requires exists h :: h in l.held && h in With(l, e).At(e.hash).claims
    ensures Represents(u + [e], With(l, e).held) && With(l, e).Clean()
    ensures ClaimedOf(Shown(With(l, e), u + [e])).Some? && ClaimedOf(Shown(With(l, e), u + [e])).value.session.Some?
  {
    var m := With(l, e);
    var record := m.At(e.hash);
    var h :| h in l.held && h in record.claims;
    CoveredIsInSession(l, h, record.sessionId);
    RecordKeepsCleanIff(l, e);
    RepresentsWith(l, u, e);
    ShowsSession(m, u + [e], e.hash, h);
  }

  lemma CoveredIsInSession(l: Listing, h: Hash, sessionId: string)
    requires Sound(l.crypto) && l.Clean() && h in l.held && AcceptedFor(l.crypto, h, sessionId)
    ensures l.InSession(h, sessionId)
  {
    assert l.ProblemOf(h) == None && !l.Lacks(h);
  }

  lemma ShowsSession(l: Listing, u: seq<Entry>, session: Hash, claim: Hash)
    requires Represents(u, l.held) && l.Clean() && l.Passes(session) && l.At(session).Session? && l.HasClaim(claim)
    ensures ClaimedOf(Shown(l, u)).Some? && ClaimedOf(Shown(l, u)).value.session.Some?
  {
    CleanIsSorted(l, u);
    ItemsFiled(l, u, ASession);
    ItemsFiled(l, u, AClaim);
    assert HasHash(Items(l, u, ASession), session) && HasHash(Items(l, u, AClaim), claim);
  }

  /** A claim that arrived after the record was made, and no earlier one, makes a covered recording fail. */
  lemma LateClaimFails(l: Listing, e: Entry, h: Hash)
    requires l.Clean() && IsNewSession(l, e) && h in l.held
    requires l.InSession(h, With(l, e).At(e.hash).sessionId)
    requires forall k :: l.InSession(k, With(l, e).At(e.hash).sessionId) ==> k !in With(l, e).At(e.hash).claims
    ensures With(l, e).ProblemOf(e.hash) == Some(ClaimNotInSession)
  {
    var m := With(l, e);
    forall k
      ensures m.InSession(k, m.At(e.hash).sessionId) <==> l.InSession(k, m.At(e.hash).sessionId)
    {
    }
    assert h in m.held && m.InSession(h, m.At(e.hash).sessionId);
  }

  /**
   * A record is listed on the recordings of all claims its session had by then, those that came after
   * the record was made among them. A clean recording stays clean exactly when it lists a claim that
   * the record lists, and then shows a session; otherwise the record itself fails.
   */
  lemma DeliveryKeepsCleanIff(l: Listing, u: seq<Entry>, e: Entry, claims: set<Hash>)
    requires Sound(l.crypto) && Represents(u, l.held) && l.Clean() && IsNewSession(l, e)
    requires forall claim :: claim in With(l, e).At(e.hash).claims ==> claim in claims
    requires forall claim :: claim in claims ==> AcceptedFor(l.crypto, claim, With(l, e).At(e.hash).sessionId)
    requires exists h :: h in l.held && h in claims
    ensures With(l, e).Clean() <==> exists h :: h in l.held && h in With(l, e).At(e.hash).claims
    ensures With(l, e).Clean() ==>
      Represents(u + [e], With(l, e).held)
      && ClaimedOf(Shown(With(l, e), u + [e])).Some? && ClaimedOf(Shown(With(l, e), u + [e])).value.session.Some?
    ensures !With(l, e).Clean() ==> With(l, e).ProblemOf(e.hash) == Some(ClaimNotInSession)
  {
    var record := With(l, e).At(e.hash);
    RecordKeepsCleanIff(l, e);
    if h :| h in l.held && h in record.claims {
      DeliveryKeepsClean(l, u, e);
    } else {
      var h :| h in l.held && h in claims;
      CoveredIsInSession(l, h, record.sessionId);
      forall k | l.InSession(k, record.sessionId)
        ensures k !in record.claims
      {
        assert k in l.held;
      }
      LateClaimFails(l, e, h);
    }
  }
}

/**
 * `verifyRecordingStatements` as the code runs it: one pass that sorts the statements into lists,
 * one pass over each list, and then the fields to show. It is proved against `Reader.Listing`.
 */
module RecordingReader {
  import opened Wrappers
  import opened Statements
  import opened Reader

  /** `bytes` is `None` when no host could serve the address. */
  datatype Entry = Entry(hash: Hash, bytes: Option<Bytes>)
  datatype Item = Item(hash: Hash, payload: Payload)
  datatype Failure = Failure(hash: Hash, problem: Problem)

  datatype VerifiedSession =
    VerifiedSession(openedAt: string, closedAt: string, hostKey: Key, devices: seq<(Key, seq<Span>)>)
  datatype Person =
    | ByCertificate(personKey: Key, deviceLabel: string, issuedAt: string)
    | ByVouch(personKey: Key, personName: string, deviceLabel: string, hostKey: Key, hostLabel: string,
        method_: Method, vouchedAt: string)
  datatype Revoked =
    Revoked(signedBy: Signer, signerKey: Key, reason: Reason, revokedAt: string, receivedBefore: bool)
  datatype Claimed = Claimed(deviceKey: Key, startedAt: string, endedAt: string, sessionId: string,
    session: Option<VerifiedSession>, person: Option<Person>, deviceLink: Option<Hash>, revocation: Option<Revoked>)
  datatype Provenance =
    | Verified(receivedAt: string, recordedByHost: bool, claimed: Claimed)
    | DeviceOnly(claimed: Claimed)
    | Unverified
    | Failed(failures: seq<Failure>)
    | Unavailable(missing: seq<Hash>)

  // ---- The list as a map ----

  function AsMap(list: seq<Entry>): map<Hash, Option<Bytes>> {
    if list == [] then map[]
    else
      var last := list[|list| - 1];
      AsMap(list[..|list| - 1])[last.hash := last.bytes]
  }

  predicate Distinct(u: seq<Entry>) {
    forall i, j :: 0 <= i < j < |u| ==> u[i].hash != u[j].hash
  }

  /** Sets a key of a map that keeps the order keys first came in. */
  function Put(u: seq<Entry>, e: Entry): (r: seq<Entry>) {
    if u == [] then [e]
    else if u[0].hash == e.hash then [e] + u[1..]
    else [u[0]] + Put(u[1..], e)
  }

  /** `new Map(list)`: each address once, where it first came, with the last bytes. */
  function Unique(list: seq<Entry>): seq<Entry> {
    if list == [] then [] else Put(Unique(list[..|list| - 1]), list[|list| - 1])
  }

  ghost predicate Represents(u: seq<Entry>, held: map<Hash, Option<Bytes>>) {
    Distinct(u) && forall e: Entry :: e in u <==> e.hash in held && held[e.hash] == e.bytes
  }

  lemma {:induction false} PutKeeps(u: seq<Entry>, e: Entry)
    requires Distinct(u)
    ensures Distinct(Put(u, e))
    ensures forall x :: x in Put(u, e) <==> x == e || (x in u && x.hash != e.hash)
  {
    if u != [] {
      forall x
        ensures x in u <==> x == u[0] || x in u[1..]
        ensures x in u[1..] ==> x.hash != u[0].hash
      {
      }
      if u[0].hash != e.hash {
        PutKeeps(u[1..], e);
      }
    }
  }

  lemma {:induction false} UniqueRepresents(list: seq<Entry>)
    ensures Represents(Unique(list), AsMap(list))
  {
    if list != [] {
      UniqueRepresents(list[..|list| - 1]);
      PutKeeps(Unique(list[..|list| - 1]), list[|list| - 1]);
    }
  }

  // ---- The lists the first pass fills ----

  predicate IsKind(l: Listing, h: Hash, kind: Kind) {
    l.Passes(h) && KindOf(l.At(h)) == Some(kind)
  }

  /** The passing statements of one kind, in list order. */
  function Items(l: Listing, u: seq<Entry>, kind: Kind): seq<Item> {
    if u == [] then []
    else
      var before, h := Items(l, u[..|u| - 1], kind), u[|u| - 1].hash;
      if IsKind(l, h, kind) then before + [Item(h, l.At(h))] else before
  }

  predicate HasHash(items: seq<Item>, h: Hash) {
    exists i :: 0 <= i < |items| && items[i].hash == h
  }

  lemma {:induction false} ItemsAre(l: Listing, u: seq<Entry>, kind: Kind)
    ensures forall i :: 0 <= i < |Items(l, u, kind)| ==>
      var it := Items(l, u, kind)[i];
      l.Passes(it.hash) && it.payload == l.At(it.hash) && KindOf(it.payload) == Some(kind)
        && exists k :: 0 <= k < |u| && u[k].hash == it.hash
    ensures forall k :: 0 <= k < |u| && l.Passes(u[k].hash) && KindOf(l.At(u[k].hash)) == Some(kind) ==>
      HasHash(Items(l, u, kind), u[k].hash)
    ensures Distinct(u) ==> forall i, j :: 0 <= i < j < |Items(l, u, kind)| ==>
      Items(l, u, kind)[i].hash != Items(l, u, kind)[j].hash
  {
    if u != [] {
      var n, front := |u| - 1, u[..|u| - 1];
      ItemsAre(l, front, kind);
      var before, all := Items(l, front, kind), Items(l, u, kind);
      assert forall i :: 0 <= i < |before| ==> all[i] == before[i];
      assert forall k :: 0 <= k < n ==> front[k] == u[k];
      forall k | 0 <= k < |u| && l.Passes(u[k].hash) && KindOf(l.At(u[k].hash)) == Some(kind)
        ensures HasHash(all, u[k].hash)
      {
        if k == n {
          assert all[|before|].hash == u[n].hash;
        } else {
          assert HasHash(before, front[k].hash);
        }
      }
    }
  }

  // ---- Failures ----

  /** The failures found so far are the problems of the statements looked at so far, each once. */
  ghost predicate Reports(l: Listing, failures: seq<Failure>, done: set<Hash>) {
    && (forall i :: 0 <= i < |failures| ==>
      failures[i].hash in done && l.ProblemOf(failures[i].hash) == Some(failures[i].problem))
    && (forall i, j :: 0 <= i < j < |failures| ==> failures[i].hash != failures[j].hash)
    && (forall h :: h in done && l.ProblemOf(h).Some? ==> exists i :: 0 <= i < |failures| && failures[i].hash == h)
  }

  lemma ReportsOneMore(l: Listing, failures: seq<Failure>, done: set<Hash>, h: Hash)
    requires Reports(l, failures, done) && h !in done
    ensures l.ProblemOf(h).None? ==> Reports(l, failures, done + {h})
    ensures l.ProblemOf(h).Some? ==> Reports(l, failures + [Failure(h, l.ProblemOf(h).value)], done + {h})
  {
    if l.ProblemOf(h).Some? {
      var more := failures + [Failure(h, l.ProblemOf(h).value)];
      forall k | k in done + {h} && l.ProblemOf(k).Some?
        ensures exists i :: 0 <= i < |more| && more[i].hash == k
      {
        if k == h {
          assert more[|failures|].hash == k;
        } else {
          var i :| 0 <= i < |failures| && failures[i].hash == k;
          assert more[i].hash == k;
        }
      }
    }
  }

  function Hashes(items: seq<Item>): set<Hash> {
    set i | 0 <= i < |items| :: items[i].hash
  }

  /** The list holds exactly the passing statements of a kind. */
  ghost predicate Filed(l: Listing, items: seq<Item>, kind: Kind) {
    && (forall i :: 0 <= i < |items| ==>
      l.Passes(items[i].hash) && items[i].payload == l.At(items[i].hash) && KindOf(items[i].payload) == Some(kind))
    && (forall i, j :: 0 <= i < j < |items| ==> items[i].hash != items[j].hash)
    && (forall h :: l.Passes(h) && KindOf(l.At(h)) == Some(kind) ==> HasHash(items, h))
  }

  lemma ItemsFiled(l: Listing, u: seq<Entry>, kind: Kind)
    requires Represents(u, l.held)
    ensures Filed(l, Items(l, u, kind), kind)
  {
    ItemsAre(l, u, kind);
    forall h | l.Passes(h) && KindOf(l.At(h)) == Some(kind)
      ensures HasHash(Items(l, u, kind), h)
    {
      assert Entry(h, l.held[h]) in u;
    }
  }

  lemma FiledHas(l: Listing, items: seq<Item>, kind: Kind, h: Hash)
    requires Filed(l, items, kind)
    ensures HasHash(items, h) <==> l.Passes(h) && KindOf(l.At(h)) == Some(kind)
  {
  }

  lemma ItemsNext(l: Listing, u: seq<Entry>, i: nat)
    requires i < |u|
    ensures forall kind :: IsKind(l, u[i].hash, kind) ==>
      Items(l, u[..i + 1], kind) == Items(l, u[..i], kind) + [Item(u[i].hash, l.At(u[i].hash))]
    ensures forall kind :: !IsKind(l, u[i].hash, kind) ==> Items(l, u[..i + 1], kind) == Items(l, u[..i], kind)
  {
    assert u[..i + 1][..i] == u[..i];
  }

  /** Settled by its own check: it failed, is of no further use, or is a claim. */
  predicate Early(l: Listing, h: Hash) {
    !l.Passes(h) || KindOf(l.At(h)) == Some(AClaim)
  }

  /** The collections the first pass fills. */
  datatype Lists =
    Lists(claims: seq<Item>, receipts: seq<Item>, sessions: seq<Item>, links: seq<Item>, revocations: seq<Item>)

  /** A passing statement goes into the list of its kind. */
  function FileIn(x: Lists, it: Item): Lists {
    match KindOf(it.payload)
    case Some(AClaim) => x.(claims := x.claims + [it])
    case Some(AReceipt) => x.(receipts := x.receipts + [it])
    case Some(ASession) => x.(sessions := x.sessions + [it])
    case Some(ALink) => x.(links := x.links + [it])
    case Some(ARevocation) => x.(revocations := x.revocations + [it])
    case None => x
  }

  function AllItems(l: Listing, u: seq<Entry>): Lists {
    Lists(Items(l, u, AClaim), Items(l, u, AReceipt), Items(l, u, ASession), Items(l, u, ALink),
      Items(l, u, ARevocation))
  }

  lemma AllItemsNext(l: Listing, u: seq<Entry>, i: nat)
    requires i < |u|
    ensures var h := u[i].hash;
      AllItems(l, u[..i + 1])
        == if l.Passes(h) then FileIn(AllItems(l, u[..i]), Item(h, l.At(h))) else AllItems(l, u[..i])
  {
    ItemsNext(l, u, i);
  }

  /** The first pass. */
  method CheckAll(c: Crypto, audio: Audio, u: seq<Entry>, ghost l: Listing)
    returns (lists: Lists, failures: seq<Failure>, missing: seq<Hash>, ghost done: set<Hash>)
    requires l.crypto == c && l.audio == audio && Represents(u, l.held)
    ensures lists == AllItems(l, u)
    ensures forall h :: h in done <==> h in l.held && Early(l, h)
    ensures Reports(l, failures, done)
    ensures forall h :: h in missing <==> h in l.held && l.held[h].None?
  {
    lists, failures, missing, done := Lists([], [], [], [], []), [], [], {};
    var i := 0;
    while i < |u|
      invariant 0 <= i <= |u|
      invariant lists == AllItems(l, u[..i])
      invariant done == EarlyOf(l, u[..i]) && Reports(l, failures, done)
      invariant missing == Absent(u[..i])
    {
      var hash, bytes := u[i].hash, u[i].bytes;
      FirstPassStep(l, u, i, failures);
      AllItemsNext(l, u, i);
      if bytes.None? {
        missing := missing + [hash];
      } else {
        var checked := CheckStatement(c, hash, bytes.value, audio);
        match checked
        case Bad(problem) => failures := failures + [Failure(hash, problem)];
        case Unknown =>
        case Passed(p) => lists := FileIn(lists, Item(hash, p));
      }
      done := EarlyOf(l, u[..i + 1]);
      i := i + 1;
    }
    assert u[..|u|] == u;
    EarlyAre(l, u);
  }

  /** What the check of one entry means for the failures and the statements that are settled. */
  lemma FirstPassStep(l: Listing, u: seq<Entry>, i: nat, failures: seq<Failure>)
    requires Represents(u, l.held) && i < |u| && Reports(l, failures, EarlyOf(l, u[..i]))
    ensures var e, done := u[i], EarlyOf(l, u[..i + 1]);
      if e.bytes.None? then !l.Passes(e.hash) && Reports(l, failures, done)
      else match CheckStatement(l.crypto, e.hash, e.bytes.value, l.audio)
        case Bad(problem) => !l.Passes(e.hash) && Reports(l, failures + [Failure(e.hash, problem)], done)
        case Unknown => !l.Passes(e.hash) && Reports(l, failures, done)
        case Passed(p) => l.Passes(e.hash) && l.At(e.hash) == p && Reports(l, failures, done)
    ensures Absent(u[..i + 1]) == Absent(u[..i]) + if u[i].bytes.None? then [u[i].hash] else []
  {
    assert u[i] in u;
    EarlyNext(l, u, i);
    ReportsOneMore(l, failures, EarlyOf(l, u[..i]), u[i].hash);
  }

  ghost function EarlyOf(l: Listing, u: seq<Entry>): (r: set<Hash>)
    ensures forall h :: h in r ==> exists k :: 0 <= k < |u| && u[k].hash == h
  {
    if u == [] then {}
    else
      var h := u[|u| - 1].hash;
      EarlyOf(l, u[..|u| - 1]) + if Early(l, h) then {h} else {}
  }

  function Absent(u: seq<Entry>): seq<Hash> {
    if u == [] then []
    else
      var e := u[|u| - 1];
      if e.bytes.None? then Absent(u[..|u| - 1]) + [e.hash] else Absent(u[..|u| - 1])
  }

  lemma EarlyNext(l: Listing, u: seq<Entry>, i: nat)
    requires i < |u| && Distinct(u)
    ensures u[i].hash !in EarlyOf(l, u[..i])
    ensures EarlyOf(l, u[..i + 1]) == EarlyOf(l, u[..i]) + if Early(l, u[i].hash) then {u[i].hash} else {}
    ensures Absent(u[..i + 1]) == Absent(u[..i]) + if u[i].bytes.None? then [u[i].hash] else []
  {
    assert u[..i + 1][..i] == u[..i];
  }

  lemma {:induction false} EarlyListed(l: Listing, u: seq<Entry>)
    ensures forall h :: h in EarlyOf(l, u) <==> exists k :: 0 <= k < |u| && u[k].hash == h && Early(l, h)
    ensures forall h :: h in Absent(u) <==> Entry(h, None) in u
  {
    if u != [] {
      var n := |u| - 1;
      EarlyListed(l, u[..n]);
      assert u == u[..n] + [u[n]];
      forall h
        ensures h in EarlyOf(l, u) <==> exists k :: 0 <= k < |u| && u[k].hash == h && Early(l, h)
      {
        if k :| 0 <= k < |u| && u[k].hash == h && Early(l, h) && k < n {
          assert u[..n][k].hash == h;
        }
        if k :| 0 <= k < n && u[..n][k].hash == h && Early(l, h) {
          assert u[k].hash == h;
        }
      }
    }
  }

  lemma EarlyAre(l: Listing, u: seq<Entry>)
    requires Represents(u, l.held)
    ensures forall h :: h in EarlyOf(l, u) <==> h in l.held && Early(l, h)
    ensures forall h :: h in Absent(u) <==> h in l.held && l.held[h].None?
  {
    EarlyListed(l, u);
    forall h | h in l.held
      ensures exists k :: 0 <= k < |u| && u[k].hash == h
    {
      assert Entry(h, l.held[h]) in u;
    }
    forall k | 0 <= k < |u|
      ensures u[k].hash in l.held
    {
      assert u[k] in u;
    }
  }

  lemma HashesNext(items: seq<Item>, i: nat)
    requires i < |items| && forall j, k :: 0 <= j < k < |items| ==> items[j].hash != items[k].hash
    ensures Hashes(items[..i + 1]) == Hashes(items[..i]) + {items[i].hash}
    ensures items[i].hash !in Hashes(items[..i]) && items[i].hash in Hashes(items)
  {
    var next := items[..i + 1];
    forall h | h in Hashes(items[..i])
      ensures h in Hashes(next) && h != items[i].hash
    {
      var k :| 0 <= k < |items[..i]| && items[..i][k].hash == h;
      assert next[k].hash == h;
    }
    assert next[i].hash in Hashes(next);
  }

  function ReceiptProblem(receipt: Payload, claims: seq<Item>): Option<Problem>
    requires receipt.Receipt?
  {
    if HasHash(claims, receipt.claim) then None else Some(ClaimNotListed)
  }

  lemma ReceiptProblemAgrees(l: Listing, claims: seq<Item>, h: Hash)
    requires Filed(l, claims, AClaim) && l.HasReceipt(h)
    ensures ReceiptProblem(l.At(h), claims) == l.ProblemOf(h)
  {
    FiledHas(l, claims, AClaim, l.At(h).claim);
  }

  /** A receipt must name a passing claim. */
  method CheckReceipts(claims: seq<Item>, receipts: seq<Item>, before: seq<Failure>, ghost l: Listing,
      ghost done: set<Hash>)
    returns (failures: seq<Failure>)
    requires Filed(l, claims, AClaim) && Filed(l, receipts, AReceipt)
    requires Reports(l, before, done) && done !! Hashes(receipts)
    ensures Reports(l, failures, done + Hashes(receipts))
  {
    failures := before;
    var i := 0;
    while i < |receipts|
      invariant 0 <= i <= |receipts| && Reports(l, failures, done + Hashes(receipts[..i]))
    {
      var hash, receipt := receipts[i].hash, receipts[i].payload;
      var problem := ReceiptProblem(receipt, claims);
      ReceiptProblemAgrees(l, claims, hash);
      HashesNext(receipts, i);
      ReportsOneMore(l, failures, done + Hashes(receipts[..i]), hash);
      assert done + Hashes(receipts[..i]) + {hash} == done + Hashes(receipts[..i + 1]);
      if problem.Some? {
        failures := failures + [Failure(hash, problem.value)];
      }
      i := i + 1;
    }
    assert receipts[..|receipts|] == receipts;
  }

  /** `sessionProblem`: over the claims in the order they are listed. */
  function SessionProblem(record: Payload, claims: seq<Item>): Option<Problem>
    requires record.Session? && forall i :: 0 <= i < |claims| ==> claims[i].payload.Claim?
  {
    if !exists i :: 0 <= i < |claims| && claims[i].payload.sessionId == record.sessionId then Some(SessionMismatch)
    else if !exists i :: 0 <= i < |claims| && claims[i].payload.sessionId == record.sessionId
               && claims[i].hash in record.claims
      then Some(ClaimNotInSession)
    else None
  }

  lemma SessionProblemAgrees(l: Listing, record: Payload, claims: seq<Item>)
    requires Filed(l, claims, AClaim) && record.Session?
    ensures SessionProblem(record, claims) == l.SessionProblem(record)
  {
    forall i | 0 <= i < |claims|
      ensures claims[i].hash in l.held
      ensures claims[i].payload.sessionId == record.sessionId <==> l.InSession(claims[i].hash, record.sessionId)
    {
    }
    forall h | h in l.held && l.InSession(h, record.sessionId)
      ensures exists i :: 0 <= i < |claims| && claims[i].hash == h && claims[i].payload.sessionId == record.sessionId
    {
      assert HasHash(claims, h);
    }
  }

  /** A session record must cover a passing claim. */
  method CheckSessions(claims: seq<Item>, sessions: seq<Item>, before: seq<Failure>, ghost l: Listing,
      ghost done: set<Hash>)
    returns (failures: seq<Failure>)
    requires Filed(l, claims, AClaim) && Filed(l, sessions, ASession)
    requires Reports(l, before, done) && done !! Hashes(sessions)
    ensures Reports(l, failures, done + Hashes(sessions))
  {
    failures := before;
    var i := 0;
    while i < |sessions|
      invariant 0 <= i <= |sessions| && Reports(l, failures, done + Hashes(sessions[..i]))
    {
      var hash, record := sessions[i].hash, sessions[i].payload;
      var problem := SessionProblem(record, claims);
      SessionStep(l, claims, sessions, i, failures, done);
      assert failures + [] == failures;
      if problem.Some? {
        failures := failures + [Failure(hash, problem.value)];
      }
      i := i + 1;
    }
    assert sessions[..|sessions|] == sessions;
  }

  lemma SessionStep(l: Listing, claims: seq<Item>, sessions: seq<Item>, i: nat, failures: seq<Failure>, done: set<Hash>)
    requires Filed(l, claims, AClaim) && Filed(l, sessions, ASession) && done !! Hashes(sessions)
    requires i < |sessions| && Reports(l, failures, done + Hashes(sessions[..i]))
    ensures var hash, problem := sessions[i].hash, SessionProblem(sessions[i].payload, claims);
      Reports(l, failures + if problem.Some? then [Failure(hash, problem.value)] else [],
        done + Hashes(sessions[..i + 1]))
  {
    SessionProblemAgrees(l, sessions[i].payload, claims);
    HashesNext(sessions, i);
    ReportsOneMore(l, failures, done + Hashes(sessions[..i]), sessions[i].hash);
    assert failures + [] == failures;
    assert done + Hashes(sessions[..i]) + {sessions[i].hash} == done + Hashes(sessions[..i + 1]);
  }

  /** The claims that name a certificate or vouch, in list order. */
  function Naming(claims: seq<Item>, h: Hash): (r: seq<Payload>)
    requires forall i :: 0 <= i < |claims| ==> claims[i].payload.Claim?
    ensures forall p :: p in r ==> p.Claim?
  {
    if claims == [] then []
    else
      var before, p := Naming(claims[..|claims| - 1], h), claims[|claims| - 1].payload;
      if p.deviceCert == Some(h) then before + [p] else before
  }

  ghost predicate IsNaming(named: map<Hash, seq<Payload>>, claims: seq<Item>)
    requires forall i :: 0 <= i < |claims| ==> claims[i].payload.Claim?
  {
    forall h :: Naming(claims, h) == if h in named then named[h] else []
  }

  /** The naming claims by what they name, and the names in the order they first came. */
  method NamedLinks(claims: seq<Item>) returns (named: map<Hash, seq<Payload>>, keys: seq<Hash>)
    requires forall i :: 0 <= i < |claims| ==> claims[i].payload.Claim?
    ensures forall h :: h in keys <==> h in named
    ensures IsNaming(named, claims) && forall h :: h in named ==> named[h] != []
  {
    named, keys := map[], [];
    var i := 0;
    while i < |claims|
      invariant 0 <= i <= |claims|
      invariant forall h :: h in keys <==> h in named
      invariant forall h :: Naming(claims[..i], h) == if h in named then named[h] else []
      invariant forall h :: h in named ==> named[h] != []
    {
      var claim := claims[i].payload;
      assert claims[..i + 1][..i] == claims[..i];
      if claim.deviceCert.Some? {
        var h := claim.deviceCert.value;
        if h in named {
          named := named[h := named[h] + [claim]];
        } else {
          named, keys := named[h := [claim]], keys + [h];
        }
      }
      i := i + 1;
    }
    assert claims[..|claims|] == claims;
  }

  function LinkProblem(link: Payload, namedBy: seq<Payload>): Option<Problem>
    requires IsLink(link) && forall i :: 0 <= i < |namedBy| ==> namedBy[i].Claim?
  {
    if namedBy == [] then Some(CertificateNotClaimed)
    else if exists i :: 0 <= i < |namedBy| && namedBy[i].deviceKey != link.deviceKey
      then Some(CertificateDeviceMismatch)
    else None
  }

  predicate Holds(claims: seq<Item>, p: Payload) {
    exists i :: 0 <= i < |claims| && claims[i].payload == p
  }

  lemma {:induction false} NamingAre(claims: seq<Item>, h: Hash)
    requires forall i :: 0 <= i < |claims| ==> claims[i].payload.Claim?
    ensures forall p :: p in Naming(claims, h) <==> p.Claim? && p.deviceCert == Some(h) && Holds(claims, p)
  {
    if claims != [] {
      var n := |claims| - 1;
      NamingAre(claims[..n], h);
      forall p: Payload
        ensures Holds(claims, p) <==> p == claims[n].payload || Holds(claims[..n], p)
      {
        if Holds(claims, p) {
          var i :| 0 <= i < |claims| && claims[i].payload == p;
          assert i < n ==> claims[..n][i].payload == p;
        }
      }
    }
  }

  /** The passing claims that name a link, as a map of lists and as a condition on addresses. */
  lemma NamingAgrees(l: Listing, claims: seq<Item>, h: Hash, p: Payload)
    requires Filed(l, claims, AClaim)
    ensures p in Naming(claims, h) <==> exists c :: c in l.held && l.Names(c, h) && l.At(c) == p
  {
    NamingAre(claims, h);
    if p in Naming(claims, h) {
      var i :| 0 <= i < |claims| && claims[i].payload == p;
      assert l.Names(claims[i].hash, h);
    }
    if c :| c in l.held && l.Names(c, h) && l.At(c) == p {
      assert HasHash(claims, c);
    }
  }

  lemma NamerOf(l: Listing, claims: seq<Item>, h: Hash, p: Payload) returns (c: Hash)
    requires Filed(l, claims, AClaim) && p in Naming(claims, h)
    ensures c in l.held && l.Names(c, h) && l.At(c) == p
  {
    NamingAgrees(l, claims, h, p);
    c :| c in l.held && l.Names(c, h) && l.At(c) == p;
  }

  lemma LinkProblemAgrees(l: Listing, claims: seq<Item>, h: Hash)
    requires Filed(l, claims, AClaim) && l.HasLink(h)
    ensures LinkProblem(l.At(h), Naming(claims, h)) == l.ProblemOf(h)
  {
    var namers, key := Naming(claims, h), l.At(h).deviceKey;
    forall c | c in l.held && l.Names(c, h)
      ensures exists i :: 0 <= i < |namers| && namers[i] == l.At(c)
    {
      NamingAgrees(l, claims, h, l.At(c));
    }
    if namers != [] {
      var c := NamerOf(l, claims, h, namers[0]);
    }
    if i :| 0 <= i < |namers| && namers[i].deviceKey != key {
      var c := NamerOf(l, claims, h, namers[i]);
    }
    assert l.ProblemOf(h) == l.LinkProblem(l.At(h), h);
  }

  /** The `get` of a map kept as a list. */
  function Lookup(items: seq<Item>, h: Hash): (r: Option<Payload>)
    ensures r.Some? <==> HasHash(items, h)
    ensures r.Some? ==> exists i :: 0 <= i < |items| && items[i] == Item(h, r.value)
  {
    if items == [] then None
    else if items[0].hash == h then Some(items[0].payload)
    else
      assert HasHash(items[1..], h) ==> HasHash(items, h) by {
        assert forall i :: 0 <= i < |items[1..]| ==> items[1..][i] == items[i + 1];
      }
      assert HasHash(items, h) ==> HasHash(items[1..], h) by {
        if HasHash(items, h) {
          var i :| 0 <= i < |items| && items[i].hash == h;
          assert items[1..][i - 1].hash == h;
        }
      }
      Lookup(items[1..], h)
  }

  method CheckLink(named: map<Hash, seq<Payload>>, hash: Hash, link: Payload, ghost claims: seq<Item>, ghost l: Listing)
    returns (problem: Option<Problem>)
    requires Filed(l, claims, AClaim) && l.HasLink(hash) && link == l.At(hash) && IsNaming(named, claims)
    ensures problem == l.ProblemOf(hash)
  {
    LinkProblemAgrees(l, claims, hash);
    problem := LinkProblem(link, if hash in named then named[hash] else []);
  }

  /** A certificate or vouch must be for the key of every passing claim that names it, and be named. */
  method CheckLinks(named: map<Hash, seq<Payload>>, links: seq<Item>, before: seq<Failure>, ghost claims: seq<Item>,
      ghost l: Listing, ghost done: set<Hash>)
    returns (failures: seq<Failure>)
    requires Filed(l, claims, AClaim) && Filed(l, links, ALink)
    requires IsNaming(named, claims) && Reports(l, before, done) && done !! Hashes(links)
    ensures Reports(l, failures, done + Hashes(links))
  {
    failures := before;
    var i := 0;
    while i < |links|
      invariant 0 <= i <= |links| && Reports(l, failures, done + Hashes(links[..i]))
    {
      var hash, link := links[i].hash, links[i].payload;
      var problem := CheckLink(named, hash, link, claims, l);
      HashesNext(links, i);
      ReportsOneMore(l, failures, done + Hashes(links[..i]), hash);
      assert done + Hashes(links[..i]) + {hash} == done + Hashes(links[..i + 1]);
      if problem.Some? {
        failures := failures + [Failure(hash, problem.value)];
      }
      i := i + 1;
    }
    assert links[..|links|] == links;
  }

  function RevocationProblem(revocation: Payload, links: seq<Item>): Option<Problem>
    requires revocation.Revocation? && forall i :: 0 <= i < |links| ==> IsLink(links[i].payload)
  {
    match Lookup(links, revocation.deviceLink)
    case None => Some(RevocationNotClaimed)
    case Some(link) =>
      if !RevocationCovers(revocation, link, revocation.deviceLink) then Some(RevocationNotPermitted) else None
  }

  lemma RevocationProblemAgrees(l: Listing, links: seq<Item>, h: Hash)
    requires Filed(l, links, ALink) && l.HasRevocation(h)
    ensures RevocationProblem(l.At(h), links) == l.ProblemOf(h)
  {
    FiledHas(l, links, ALink, l.At(h).deviceLink);
  }

  /** A revocation must withdraw a certificate or vouch that passed, by a signer who may. */
  method CheckRevocations(links: seq<Item>, revocations: seq<Item>, before: seq<Failure>, ghost l: Listing,
      ghost done: set<Hash>)
    returns (failures: seq<Failure>)
    requires Filed(l, links, ALink) && Filed(l, revocations, ARevocation)
    requires Reports(l, before, done) && done !! Hashes(revocations)
    ensures Reports(l, failures, done + Hashes(revocations))
  {
    failures := before;
    var i := 0;
    while i < |revocations|
      invariant 0 <= i <= |revocations| && Reports(l, failures, done + Hashes(revocations[..i]))
    {
      var hash, revocation := revocations[i].hash, revocations[i].payload;
      var problem := RevocationProblem(revocation, links);
      RevocationProblemAgrees(l, links, hash);
      HashesNext(revocations, i);
      ReportsOneMore(l, failures, done + Hashes(revocations[..i]), hash);
      assert done + Hashes(revocations[..i]) + {hash} == done + Hashes(revocations[..i + 1]);
      if problem.Some? {
        failures := failures + [Failure(hash, problem.value)];
      }
      i := i + 1;
    }
    assert revocations[..|revocations|] == revocations;
  }

  // ---- What is shown ----

  /** An unparseable time is later than every other. */
  predicate Earlier(a: Option<int>, b: Option<int>) {
    a.Some? && (b.None? || a.value < b.value)
  }

  /** Where a stable sort by time would put the first element from. */
  function EarliestIndex(times: seq<Option<int>>): (r: nat)
    requires times != []
    ensures r < |times|
    ensures forall j :: 0 <= j < |times| ==> !Earlier(times[j], times[r])
    ensures forall j :: 0 <= j < r ==> Earlier(times[r], times[j])
  {
    if |times| == 1 then 0
    else
      var n := |times| - 1;
      var before := EarliestIndex(times[..n]);
      assert forall j :: 0 <= j < n ==> times[..n][j] == times[j];
      if Earlier(times[n], times[before]) then n else before
  }

  /** Every item that is listed before this one has a later time. */
  predicate IsFirstAt(c: Crypto, items: seq<Item>, i: nat)
    requires i < |items|
    requires forall k :: 0 <= k < |items| ==> items[k].payload.Receipt? || items[k].payload.Revocation?
  {
    forall j :: 0 <= j < i ==> Earlier(TimeOf(c, items[i].payload), TimeOf(c, items[j].payload))
  }

  /** `sort((a, b) => timeOf(a) - timeOf(b))[0]` over the items a time is read from. */
  function EarliestItem(c: Crypto, items: seq<Item>): (r: Option<Payload>)
    requires forall i :: 0 <= i < |items| ==> items[i].payload.Receipt? || items[i].payload.Revocation?
    ensures r.None? <==> items == []
    ensures r.Some? ==> exists i :: 0 <= i < |items| && items[i].payload == r.value && IsFirstAt(c, items, i)
    ensures r.Some? ==> forall i :: 0 <= i < |items| ==> !Earlier(TimeOf(c, items[i].payload), TimeOf(c, r.value))
  {
    if items == [] then None
    else
      var times := seq(|items|, i requires 0 <= i < |items| => TimeOf(c, items[i].payload));
      var first := EarliestIndex(times);
      assert forall i :: 0 <= i < |items| ==>
        times[i] == TimeOf(c, items[i].payload) && !Earlier(times[i], times[first]);
      Some(items[first].payload)
  }

  /** The host's time of a receipt, the signer's time of a revocation. */
  function TimeOf(c: Crypto, p: Payload): Option<int>
    requires p.Receipt? || p.Revocation?
  {
    c.time(if p.Receipt? then p.receivedAt else p.revokedAt)
  }

  /** The revocations that withdraw a link, in list order. */
  function Covering(revocations: seq<Item>, link: Payload, address: Hash): (r: seq<Item>)
    requires IsLink(link) && forall i :: 0 <= i < |revocations| ==> revocations[i].payload.Revocation?
    ensures forall it :: it in r <==> it in revocations && RevocationCovers(it.payload, link, address)
  {
    if revocations == [] then []
    else
      var n := |revocations| - 1;
      assert revocations == revocations[..n] + [revocations[n]];
      Covering(revocations[..n], link, address)
      + (if RevocationCovers(revocations[n].payload, link, address) then [revocations[n]] else [])
  }

  function ShowRevocation(c: Crypto, revocation: Payload, receivedAt: Option<string>): Revoked
    requires revocation.Revocation?
  {
    var received := match receivedAt case None => None case Some(at) => c.time(at);
    var revoked := c.time(revocation.revokedAt);
    Revoked(revocation.signedBy, revocation.signerKey, revocation.reason, revocation.revokedAt,
      received.Some? && revoked.Some? && received.value < revoked.value)
  }

  function ShowSession(record: Payload): VerifiedSession
    requires record.Session?
  {
    VerifiedSession(record.openedAt, record.closedAt, record.hostKey,
      seq(|record.devices|, i requires 0 <= i < |record.devices| => (record.devices[i].deviceKey,
        record.devices[i].spans)))
  }

  function ShowPerson(link: Payload): Person
    requires IsLink(link)
  {
    if link.Vouch? then
      ByVouch(link.personKey, link.personName, link.deviceLabel, link.hostKey, link.hostLabel, link.method_,
        link.vouchedAt)
    else ByCertificate(link.personKey, link.deviceLabel, link.issuedAt)
  }

  function Show(c: Crypto, claim: Payload, session: Option<Payload>, links: seq<Item>, revocations: seq<Item>,
      receivedAt: Option<string>): Claimed
    requires claim.Claim? && (session.Some? ==> session.value.Session?)
    requires forall i :: 0 <= i < |links| ==> IsLink(links[i].payload)
    requires forall i :: 0 <= i < |revocations| ==> revocations[i].payload.Revocation?
  {
    var link := if claim.deviceCert.Some? then Lookup(links, claim.deviceCert.value) else None;
    var first :=
      if link.Some? then EarliestItem(c, Covering(revocations, link.value, claim.deviceCert.value)) else None;
    Claimed(claim.deviceKey, claim.startedAt, claim.endedAt, claim.sessionId,
      if session.Some? then Some(ShowSession(session.value)) else None,
      if link.Some? then Some(ShowPerson(link.value)) else None,
      if link.Some? then claim.deviceCert else None,
      if first.Some? then Some(ShowRevocation(c, first.value, receivedAt)) else None)
  }

  function FirstPayload(items: seq<Item>): Option<Payload> {
    if items == [] then None else Some(items[0].payload)
  }

  /** Each list holds its kind, and every receipt's claim is among the claims. */
  predicate Sorted(claims: seq<Item>, receipts: seq<Item>, sessions: seq<Item>, links: seq<Item>,
      revocations: seq<Item>) {
    && (forall i :: 0 <= i < |claims| ==> claims[i].payload.Claim?)
    && (forall i :: 0 <= i < |receipts| ==> receipts[i].payload.Receipt? && HasHash(claims, receipts[i].payload.claim))
    && (forall i :: 0 <= i < |sessions| ==> sessions[i].payload.Session?)
    && (forall i :: 0 <= i < |links| ==> IsLink(links[i].payload))
    && (forall i :: 0 <= i < |revocations| ==> revocations[i].payload.Revocation?)
  }

  /** The first listed session, the earliest receipt, and the claim it names or else any claim. */
  function Compose(c: Crypto, claims: seq<Item>, receipts: seq<Item>, sessions: seq<Item>, links: seq<Item>,
      revocations: seq<Item>): Provenance
    requires Sorted(claims, receipts, sessions, links, revocations)
  {
    var session, earliest := FirstPayload(sessions), EarliestItem(c, receipts);
    if earliest.Some? then
      var claim := Lookup(claims, earliest.value.claim).value;
      Verified(earliest.value.receivedAt, earliest.value.hostKey == claim.deviceKey,
        Show(c, claim, session, links, revocations, Some(earliest.value.receivedAt)))
    else if claims != [] then
      DeviceOnly(Show(c, claims[0].payload, session, links, revocations, None))
    else Unverified
  }

  /** What a clean recording shows. */
  ghost function Shown(l: Listing, u: seq<Entry>): Provenance
    requires Represents(u, l.held) && l.Clean()
  {
    CleanIsSorted(l, u);
    Compose(l.crypto, Items(l, u, AClaim), Items(l, u, AReceipt), Items(l, u, ASession), Items(l, u, ALink),
      Items(l, u, ARevocation))
  }

  lemma CleanIsSorted(l: Listing, u: seq<Entry>)
    requires Represents(u, l.held) && forall h :: h in l.held ==> l.ProblemOf(h) == None
    ensures Sorted(Items(l, u, AClaim), Items(l, u, AReceipt), Items(l, u, ASession), Items(l, u, ALink),
      Items(l, u, ARevocation))
  {
    ItemsFiled(l, u, AClaim);
    ItemsFiled(l, u, AReceipt);
    ItemsFiled(l, u, ASession);
    ItemsFiled(l, u, ALink);
    ItemsFiled(l, u, ARevocation);
    ReceiptsHaveClaims(l, Items(l, u, AClaim), Items(l, u, AReceipt));
  }

  lemma ReceiptsHaveClaims(l: Listing, claims: seq<Item>, receipts: seq<Item>)
    requires Filed(l, claims, AClaim) && Filed(l, receipts, AReceipt)
    requires forall h :: h in l.held ==> l.ProblemOf(h) == None
    ensures forall i :: 0 <= i < |receipts| ==>
      receipts[i].payload.Receipt? && HasHash(claims, receipts[i].payload.claim)
  {
    forall i | 0 <= i < |receipts|
      ensures HasHash(claims, receipts[i].payload.claim)
    {
      ReceiptProblemAgrees(l, claims, receipts[i].hash);
    }
  }

  /** The result says what the listing proves. */
  ghost predicate Reads(l: Listing, u: seq<Entry>, r: Provenance)
    requires Represents(u, l.held)
  {
    match r
    case Failed(failures) => failures != [] && Reports(l, failures, l.held.Keys)
    case Unavailable(missing) =>
      && missing != [] && (forall h :: h in l.held ==> l.ProblemOf(h) == None)
      && (forall h :: h in missing <==> l.Lacks(h))
    case _ => l.Clean() && r == Shown(l, u)
  }

  /** `verifyRecordingStatements`. */
  method VerifyRecording(c: Crypto, audio: Audio, statements: seq<Entry>) returns (r: Provenance)
    ensures var l := Listing(c, audio, AsMap(statements));
      Represents(Unique(statements), l.held) && Reads(l, Unique(statements), r)
  {
    ghost var l := Listing(c, audio, AsMap(statements));
    UniqueRepresents(statements);
    var u := Unique(statements);
    var x, failures, missing, done := CheckAll(c, audio, u, l);
    failures, missing := CheckTogether(u, x, failures, missing, l, done);
    if |failures| > 0 {
      return Failed(failures);
    }
    NoFailures(l);
    if |missing| > 0 {
      return Unavailable(missing);
    }
    CleanIsSorted(l, u);
    r := Compose(c, x.claims, x.receipts, x.sessions, x.links, x.revocations);
  }

  /** The passes after the first: each statement next to the others. */
  method CheckTogether(u: seq<Entry>, x: Lists, before: seq<Failure>, absent: seq<Hash>, ghost l: Listing,
      ghost done: set<Hash>)
    returns (failures: seq<Failure>, missing: seq<Hash>)
    requires Represents(u, l.held) && x == AllItems(l, u)
    requires forall h :: h in done <==> h in l.held && Early(l, h)
    requires Reports(l, before, done)
    requires forall h :: h in absent <==> h in l.held && l.held[h].None?
    ensures Reports(l, failures, l.held.Keys)
    ensures forall h :: h in missing <==> l.Lacks(h)
  {
    ItemsFiled(l, u, AClaim);
    ItemsFiled(l, u, AReceipt);
    ItemsFiled(l, u, ASession);
    ItemsFiled(l, u, ALink);
    ItemsFiled(l, u, ARevocation);
    KindsAreApart(l, done, x.receipts, x.sessions, x.links, x.revocations);
    failures := CheckReceipts(x.claims, x.receipts, before, l, done);
    failures := CheckSessions(x.claims, x.sessions, failures, l, done + Hashes(x.receipts));
    var named, keys := NamedLinks(x.claims);
    failures := CheckLinks(named, x.links, failures, x.claims, l, done + Hashes(x.receipts) + Hashes(x.sessions));
    failures := CheckRevocations(x.links, x.revocations, failures, l, done + Hashes(x.receipts) + Hashes(x.sessions)
      + Hashes(x.links));
    missing := AddUnlisted(u, keys, named, x.claims, absent, l);
  }

  lemma NoFailures(l: Listing)
    ensures Reports(l, [], l.held.Keys) ==> forall h :: h in l.held ==> l.ProblemOf(h) == None
  {
  }

  lemma KindsAreApart(l: Listing, done: set<Hash>, receipts: seq<Item>, sessions: seq<Item>, links: seq<Item>,
      revocations: seq<Item>)
    requires Filed(l, receipts, AReceipt) && Filed(l, sessions, ASession)
    requires Filed(l, links, ALink) && Filed(l, revocations, ARevocation)
    requires forall h :: h in done <==> h in l.held && Early(l, h)
    ensures done !! Hashes(receipts) && done + Hashes(receipts) !! Hashes(sessions)
    ensures done + Hashes(receipts) + Hashes(sessions) !! Hashes(links)
    ensures done + Hashes(receipts) + Hashes(sessions) + Hashes(links) !! Hashes(revocations)
    ensures done + Hashes(receipts) + Hashes(sessions) + Hashes(links) + Hashes(revocations) == l.held.Keys
  {
    InHashes(l, receipts, AReceipt);
    InHashes(l, sessions, ASession);
    InHashes(l, links, ALink);
    InHashes(l, revocations, ARevocation);
    forall h | l.Passes(h)
      ensures KindOf(l.At(h)).Some?
    {
    }
  }

  lemma InHashes(l: Listing, items: seq<Item>, kind: Kind)
    requires Filed(l, items, kind)
    ensures forall h :: h in Hashes(items) <==> l.Passes(h) && KindOf(l.At(h)) == Some(kind)
  {
    forall h
      ensures h in Hashes(items) <==> HasHash(items, h)
    {
    }
  }

  /** A link a passing claim names and nobody listed is missing too. */
  method AddUnlisted(u: seq<Entry>, keys: seq<Hash>, ghost named: map<Hash, seq<Payload>>, ghost claims: seq<Item>,
      absent: seq<Hash>, ghost l: Listing)
    returns (missing: seq<Hash>)
    requires Represents(u, l.held) && Filed(l, claims, AClaim)
    requires forall h :: h in keys <==> h in named
    requires IsNaming(named, claims) && forall h :: h in named ==> named[h] != []
    requires forall h :: h in absent <==> h in l.held && l.held[h].None?
    ensures forall h :: h in missing <==> l.Lacks(h)
  {
    missing := absent;
    var i := 0;
    while i < |keys|
      invariant 0 <= i <= |keys|
      invariant forall h :: h in missing <==> h in absent || (h !in l.held && h in keys[..i])
    {
      UniqueHas(u, l.held, keys[i]);
      if !exists k :: 0 <= k < |u| && u[k].hash == keys[i] {
        missing := missing + [keys[i]];
      }
      i := i + 1;
    }
    assert keys[..|keys|] == keys;
    forall h
      ensures h in named <==> exists c :: c in l.held && l.Names(c, h)
    {
      if h in named {
        NamingAgrees(l, claims, h, named[h][0]);
      }
      if c :| c in l.held && l.Names(c, h) {
        NamingAgrees(l, claims, h, l.At(c));
      }
    }
  }

  lemma UniqueHas(u: seq<Entry>, held: map<Hash, Option<Bytes>>, h: Hash)
    requires Represents(u, held)
    ensures h in held <==> exists k :: 0 <= k < |u| && u[k].hash == h
  {
    if h in held {
      assert Entry(h, held[h]) in u;
    }
    if k :| 0 <= k < |u| && u[k].hash == h {
      assert u[k] in u;
    }
  }
}

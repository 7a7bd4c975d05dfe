/**
 * Inputs on which the code does less than it seems to: recordings of a few one-byte statements, over a
 * table of what those bytes mean.
 */
module Witnesses {
  import opened Wrappers
  import opened Statements
  import opened Reader
  import opened RecordingReader
  import opened ReaderTheorems
  import StatementHost
  import Replication

  // ---- A concrete cryptography ----

  function Unary(n: nat): (r: string)
    ensures r != ""
  {
    if n == 0 then "b" else "a" + Unary(n - 1)
  }

  /** An address that spells the bytes. */
  function Name(b: Bytes): Hash {
    if b == [] then "" else Unary(b[0]) + Name(b[1..])
  }

  lemma {:induction false} UnaryIsAPrefixCode(m: nat, n: nat, x: string, y: string)
    requires Unary(m) + x == Unary(n) + y
    ensures m == n && x == y
  {
    var s, t := Unary(m) + x, Unary(n) + y;
    assert s[0] == (if m == 0 then 'b' else 'a') && t[0] == if n == 0 then 'b' else 'a';
    if m > 0 {
      assert s[1..] == Unary(m - 1) + x && t[1..] == Unary(n - 1) + y;
      UnaryIsAPrefixCode(m - 1, n - 1, x, y);
    } else {
      assert s[1..] == x && t[1..] == y;
    }
  }

  lemma {:induction false} NameIsOneToOne(a: Bytes, b: Bytes)
    requires Name(a) == Name(b)
    ensures a == b
    decreases |a|
  {
    if a != [] && b != [] {
      UnaryIsAPrefixCode(a[0], b[0], Name(a[1..]), Name(b[1..]));
      NameIsOneToOne(a[1..], b[1..]);
      assert a == [a[0]] + a[1..] && b == [b[0]] + b[1..];
    }
  }

  function Place(table: seq<Signed>, s: Signed): (r: Option<nat>)
    ensures r.Some? ==> r.value < |table| && table[r.value] == s
    ensures r.None? <==> s !in table
  {
    if table == [] then None
    else if table[|table| - 1] == s then Some(|table| - 1)
    else Place(table[..|table| - 1], s)
  }

  function ReadFrom(table: seq<Signed>, b: Bytes): Option<Signed> {
    if |b| == 1 && b[0] < |table| then Some(table[b[0]]) else None
  }

  function WrittenFrom(table: seq<Signed>, s: Signed): Option<Bytes> {
    match Place(table, s)
    case None => None
    case Some(i) => Some([i])
  }

  function TimeFrom(t: string): Option<int> {
    if t == "5" then Some(5) else if t == "9" then Some(9) else None
  }

  /** Statement `i` of the table is stored as the one byte `i`, and every statement of the table verifies. */
  function TableOf(table: seq<Signed>): Crypto {
    Crypto(Name, b => ReadFrom(table, b), s => WrittenFrom(table, s), (s, k) => s in table, TimeFrom)
  }

  lemma TableIsSound(table: seq<Signed>)
    ensures Sound(TableOf(table))
  {
    var c := TableOf(table);
    forall a, b | c.hash(a) == c.hash(b)
      ensures a == b
    {
      NameIsOneToOne(a, b);
    }
  }

  predicate Different(table: seq<Signed>) {
    forall i, j :: 0 <= i < j < |table| ==> table[i] != table[j]
  }

  lemma WrittenAs(table: seq<Signed>, i: nat)
    requires Different(table) && i < |table|
    ensures WrittenFrom(table, table[i]) == Some([i])
  {
    var p := Place(table, table[i]).value;
    assert p == i;
  }

  // ---- A recording of the first `n` statements of the table ----

  function At(i: nat): Hash {
    Name([i])
  }

  lemma AtIsOneToOne(i: nat, j: nat)
    ensures At(i) == At(j) <==> i == j
  {
    if At(i) == At(j) {
      NameIsOneToOne([i], [j]);
      assert [i][0] == [j][0];
    }
  }

  function Held(n: nat): map<Hash, Option<Bytes>> {
    if n == 0 then map[] else Held(n - 1)[At(n - 1) := Some([n - 1])]
  }

  function Entries(n: nat): seq<Entry> {
    if n == 0 then [] else Entries(n - 1) + [Entry(At(n - 1), Some([n - 1]))]
  }

  function Recording(table: seq<Signed>, audio: Audio, n: nat): Listing {
    Listing(TableOf(table), audio, Held(n))
  }

  lemma {:induction false} HeldIs(n: nat)
    ensures forall h :: h in Held(n) <==> exists i :: 0 <= i < n && h == At(i)
    ensures forall i :: 0 <= i < n ==> At(i) in Held(n) && Held(n)[At(i)] == Some([i])
  {
    if n > 0 {
      HeldIs(n - 1);
      var before, last := Held(n - 1), At(n - 1);
      forall i | 0 <= i < n
        ensures At(i) in Held(n) && Held(n)[At(i)] == Some([i])
      {
        AtIsOneToOne(i, n - 1);
      }
      forall h | h in Held(n)
        ensures exists i :: 0 <= i < n && h == At(i)
      {
        if h in before {
          var i :| 0 <= i < n - 1 && h == At(i);
        } else {
          assert h == last;
        }
      }
    }
  }

  lemma {:induction false} EntriesRepresent(n: nat)
    ensures |Entries(n)| == n && Represents(Entries(n), Held(n))
  {
    if n > 0 {
      EntriesRepresent(n - 1);
      HeldIs(n - 1);
      var before := Entries(n - 1);
      forall i | 0 <= i < |before|
        ensures before[i].hash != At(n - 1)
      {
        assert before[i] in before;
        var k :| 0 <= k < n - 1 && before[i].hash == At(k);
        AtIsOneToOne(k, n - 1);
      }
    }
  }

  /** A statement of the table that passes on its own. */
  predicate Sane(p: Payload, audio: Audio) {
    if p.Claim? then p.blobHash == audio.hash && p.size == audio.size else SignerOf(p).Some?
  }

  lemma PassesAt(table: seq<Signed>, audio: Audio, n: nat, i: nat)
    requires Different(table) && i < n <= |table| && Sane(table[i].payload, audio)
    ensures Recording(table, audio, n).Passes(At(i)) && Recording(table, audio, n).At(At(i)) == table[i].payload
  {
    HeldIs(n);
    WrittenAs(table, i);
    assert ReadFrom(table, [i]) == Some(table[i]);
  }

  lemma ItemsNext(table: seq<Signed>, audio: Audio, n: nat, k: nat, kind: Kind)
    requires Different(table) && k < n <= |table| && Sane(table[k].payload, audio)
    ensures var l := Recording(table, audio, n);
      Items(l, Entries(k + 1), kind) == Items(l, Entries(k), kind)
        + if KindOf(table[k].payload) == Some(kind) then [Item(At(k), table[k].payload)] else []
  {
    PassesAt(table, audio, n, k);
    EntriesRepresent(k);
    assert Entries(k + 1)[..|Entries(k + 1)| - 1] == Entries(k);
  }

  // ---- A revocation that ends doubt ----

  const SONG := Audio("song", 7)

  function AClaimOf(audio: Audio, link: Option<Hash>): Signed {
    Signed(Claim(audio.hash, audio.size, "audio/mp4", "1", "2", "session", "device", link, 0), "")
  }

  function ACertificate(): Signed {
    Signed(Certificate("person", "device", "phone", "0", 0), "")
  }

  function ARevocationAt(time: string): Signed {
    Signed(Revocation("person", ByPerson, "device", At(1), Lost, time, 0), "")
  }

  /** A claim, its certificate, a receipt at 5, a revocation whose time does not parse, and one at 9. */
  function Doubtful(): seq<Signed> {
    [ AClaimOf(SONG, Some(At(1))), ACertificate(), Signed(Receipt(At(0), "5", "host", 0), ""),
      ARevocationAt("never"), ARevocationAt("9")]
  }

  /**
   * A claim first, the certificate it names second, and then receipts of the claim and revocations of the
   * certificate.
   */
  predicate Linked(table: seq<Signed>, audio: Audio) {
    && Different(table) && |table| >= 2
    && table[0] == AClaimOf(audio, Some(At(1))) && table[1] == ACertificate()
    && forall i :: 2 <= i < |table| ==>
      || (table[i].payload.Receipt? && table[i].payload.claim == At(0))
      || (table[i].payload.Revocation? && RevocationCovers(table[i].payload, table[1].payload, At(1)))
  }

  lemma LinkedPasses(table: seq<Signed>, audio: Audio, n: nat, i: nat)
    requires Linked(table, audio) && i < n <= |table|
    ensures Sane(table[i].payload, audio)
    ensures Recording(table, audio, n).Passes(At(i)) && Recording(table, audio, n).At(At(i)) == table[i].payload
  {
    PassesAt(table, audio, n, i);
  }

  lemma OnlyTheClaim(table: seq<Signed>, audio: Audio, n: nat, h: Hash)
    requires Linked(table, audio) && 2 <= n <= |table|
    ensures Recording(table, audio, n).HasClaim(h) <==> h == At(0)
  {
    LinkedPasses(table, audio, n, 0);
    HeldIs(n);
    if Recording(table, audio, n).HasClaim(h) {
      var i :| 0 <= i < n && h == At(i);
      LinkedPasses(table, audio, n, i);
    }
  }

  lemma LinkedProblem(table: seq<Signed>, audio: Audio, n: nat, i: nat)
    requires Linked(table, audio) && 2 <= n <= |table| && i < n
    ensures Recording(table, audio, n).ProblemOf(At(i)) == None
  {
    var l := Recording(table, audio, n);
    HeldIs(n);
    LinkedPasses(table, audio, n, 0);
    LinkedPasses(table, audio, n, 1);
    LinkedPasses(table, audio, n, i);
    assert l.Names(At(0), At(1)) && At(0) in l.held;
    forall h | l.Names(h, At(1))
      ensures h == At(0)
    {
      OnlyTheClaim(table, audio, n, h);
    }
    if i == 1 {
      assert l.LinkProblem(table[1].payload, At(1)) == None;
    }
  }

  lemma LinkedIsClean(table: seq<Signed>, audio: Audio, n: nat)
    requires Linked(table, audio) && 2 <= n <= |table|
    ensures Recording(table, audio, n).Clean()
  {
    var l := Recording(table, audio, n);
    HeldIs(n);
    forall h | h in l.held
      ensures l.ProblemOf(h) == None && l.held[h].Some?
    {
      var i :| 0 <= i < n && h == At(i);
      LinkedProblem(table, audio, n, i);
    }
    forall h
      ensures !l.Lacks(h)
    {
      if claim :| claim in l.held && l.Names(claim, h) {
        OnlyTheClaim(table, audio, n, claim);
        LinkedPasses(table, audio, n, 0);
      }
    }
  }

  lemma DoubtfulIsLinked()
    ensures Linked(Doubtful(), SONG)
  {
    AtIsOneToOne(0, 1);
  }

  /** What the first four statements show. */
  lemma DoubtfulShows()
    ensures Represents(Entries(4), Held(4)) && Recording(Doubtful(), SONG, 4).Clean()
    ensures var r := Shown(Recording(Doubtful(), SONG, 4), Entries(4));
      && r.Verified? && r.receivedAt == "5" && r.claimed.deviceLink == Some(At(1))
      && r.claimed.revocation == Some(Revoked(ByPerson, "person", Lost, "never", false))
  {
    var table, l := Doubtful(), Recording(Doubtful(), SONG, 4);
    DoubtfulIsLinked();
    EntriesRepresent(4);
    LinkedIsClean(table, SONG, 4);
    DoubtfulItems(AClaim);
    DoubtfulItems(AReceipt);
    DoubtfulItems(ASession);
    DoubtfulItems(ALink);
    DoubtfulItems(ARevocation);
    CleanIsSorted(l, Entries(4));
    DoubtfulComposes(l.crypto);
  }

  function OneItem(i: nat): seq<Item>
    requires i < 5
  {
    [Item(At(i), Doubtful()[i].payload)]
  }

  lemma DoubtfulItems(kind: Kind)
    ensures Items(Recording(Doubtful(), SONG, 4), Entries(4), kind) ==
      match kind
      case AClaim => OneItem(0)
      case ALink => OneItem(1)
      case AReceipt => OneItem(2)
      case ARevocation => OneItem(3)
      case ASession => []
  {
    DoubtfulIsLinked();
    LinkedItems(Doubtful(), SONG, 4, 4, kind);
    PickedFour(Doubtful(), kind);
  }

  lemma PickedFour(table: seq<Signed>, kind: Kind)
    requires |table| >= 4 && table[0].payload.Claim? && table[1].payload.Certificate?
    requires table[2].payload.Receipt? && table[3].payload.Revocation?
    ensures Picked(table, 4, kind) ==
      match kind
      case AClaim => [Item(At(0), table[0].payload)]
      case ALink => [Item(At(1), table[1].payload)]
      case AReceipt => [Item(At(2), table[2].payload)]
      case ARevocation => [Item(At(3), table[3].payload)]
      case ASession => []
  {
    assert Picked(table, 0, kind) == [];
    PickedNext(table, 0, kind);
    PickedNext(table, 1, kind);
    PickedNext(table, 2, kind);
    PickedNext(table, 3, kind);
  }

  lemma PickedNext(table: seq<Signed>, k: nat, kind: Kind)
    requires k < |table|
    ensures KindOf(table[k].payload) != Some(kind) ==> Picked(table, k + 1, kind) == Picked(table, k, kind)
    ensures KindOf(table[k].payload) == Some(kind) && Picked(table, k, kind) == [] ==>
      Picked(table, k + 1, kind) == [Item(At(k), table[k].payload)]
  {
    var before := Picked(table, k, kind);
    assert before + [] == before && [] + Pick(table, k, kind) == Pick(table, k, kind);
  }

  function Pick(table: seq<Signed>, k: nat, kind: Kind): seq<Item>
    requires k < |table|
  {
    if KindOf(table[k].payload) == Some(kind) then [Item(At(k), table[k].payload)] else []
  }

  /** Those of one kind among the first statements of the table. */
  function Picked(table: seq<Signed>, k: nat, kind: Kind): seq<Item>
    requires k <= |table|
  {
    if k == 0 then [] else Picked(table, k - 1, kind) + Pick(table, k - 1, kind)
  }

  lemma {:induction false} LinkedItems(table: seq<Signed>, audio: Audio, n: nat, k: nat, kind: Kind)
    requires Linked(table, audio) && k <= n <= |table|
    ensures Items(Recording(table, audio, n), Entries(k), kind) == Picked(table, k, kind)
  {
    if k > 0 {
      LinkedItems(table, audio, n, k - 1, kind);
      LinkedPasses(table, audio, n, k - 1);
      ItemsNext(table, audio, n, k - 1, kind);
    }
  }

  lemma EarliestOfOne(c: Crypto, it: Item)
    requires it.payload.Receipt? || it.payload.Revocation?
    ensures EarliestItem(c, [it]) == Some(it.payload)
  {
  }

  lemma CoveringOne(it: Item, link: Payload, address: Hash)
    requires it.payload.Revocation? && IsLink(link) && RevocationCovers(it.payload, link, address)
    ensures Covering([it], link, address) == [it]
  {
    assert [it][..0] == [] && Covering([], link, address) == [];
    assert [] + [it] == [it];
  }

  lemma DoubtfulComposes(c: Crypto)
    requires c.time == TimeFrom && Sorted(OneItem(0), OneItem(2), [], OneItem(1), OneItem(3))
    ensures var r := Compose(c, OneItem(0), OneItem(2), [], OneItem(1), OneItem(3));
      && r.Verified? && r.receivedAt == "5" && r.claimed.deviceLink == Some(At(1))
      && r.claimed.revocation == Some(Revoked(ByPerson, "person", Lost, "never", false))
  {
    var claim, receipt, link, revocation := OneItem(0)[0], OneItem(2)[0], OneItem(1)[0], OneItem(3)[0];
    assert Lookup(OneItem(0), At(0)) == Some(claim.payload) && Lookup(OneItem(1), At(1)) == Some(link.payload);
    EarliestOfOne(c, receipt);
    CoveringOne(revocation, link.payload, At(1));
    EarliestOfOne(c, revocation);
    assert TimeFrom("never") == None;
  }

  lemma FifthIsPermitted()
    ensures var l, e := Recording(Doubtful(), SONG, 4), Entry(At(4), Some([4]));
      && IsNewRevocation(l, e) && Permitted(l, e) && With(l, e).At(e.hash) == ARevocationAt("9").payload
  {
    var table, l, e := Doubtful(), Recording(Doubtful(), SONG, 4), Entry(At(4), Some([4]));
    DoubtfulIsLinked();
    HeldIs(4);
    assert e.hash !in l.held by {
      if i :| 0 <= i < 4 && e.hash == At(i) {
        AtIsOneToOne(i, 4);
      }
    }
    assert With(l, e) == Recording(table, SONG, 5);
    LinkedPasses(table, SONG, 5, 4);
    LinkedPasses(table, SONG, 4, 1);
  }

  /** Where the shown time does not parse, a new one that is after the arrival ends the doubt. */
  lemma EndsDoubt(l: Listing, u: seq<Entry>, e: Entry)
    requires Represents(u, l.held) && l.Clean() && IsNewRevocation(l, e) && Permitted(l, e)
    requires ClaimedOf(Shown(l, u)).Some? && ClaimedOf(Shown(l, u)).value.revocation.Some?
    requires l.crypto.time(ClaimedOf(Shown(l, u)).value.revocation.value.revokedAt).None?
    requires Some(With(l, e).At(e.hash).deviceLink) == ClaimedOf(Shown(l, u)).value.deviceLink
    requires l.crypto.time(With(l, e).At(e.hash).revokedAt).Some?
    requires Earlier(Arrival(Shown(l, u), l.crypto), l.crypto.time(With(l, e).At(e.hash).revokedAt))
    ensures Represents(u + [e], With(l, e).held) && With(l, e).Clean()
    ensures ClaimedOf(Shown(With(l, e), u + [e])).Some? && ClaimedOf(Shown(With(l, e), u + [e])).value.revocation.Some?
    ensures !ClaimedOf(Shown(l, u)).value.revocation.value.receivedBefore
    ensures ClaimedOf(Shown(With(l, e), u + [e])).value.revocation.value.receivedBefore
  {
    assert Inserted(u, e, |u|) == u + [e];
    RevocationEndsDoubtIff(l, u, e, |u|);
  }

  lemma NinthIsLater(l: Listing, u: seq<Entry>, e: Entry)
    requires Represents(u, l.held) && l.Clean() && l.crypto.time == TimeFrom
    requires Shown(l, u).Verified? && Shown(l, u).receivedAt == "5"
    requires Shown(l, u).claimed.revocation == Some(Revoked(ByPerson, "person", Lost, "never", false))
    requires IsNewRevocation(l, e) && With(l, e).At(e.hash) == ARevocationAt("9").payload
    ensures ClaimedOf(Shown(l, u)) == Some(Shown(l, u).claimed)
    ensures l.crypto.time(Shown(l, u).claimed.revocation.value.revokedAt).None?
    ensures l.crypto.time(With(l, e).At(e.hash).revokedAt).Some?
    ensures Earlier(Arrival(Shown(l, u), l.crypto), l.crypto.time(With(l, e).At(e.hash).revokedAt))
  {
    assert TimeFrom("never") == None && TimeFrom("5") == Some(5) && TimeFrom("9") == Some(9);
  }

  /** A clean recording, and a permitted revocation that turns `receivedBeforeRevocation` from false to true. */
  lemma RevocationCanEndDoubt() returns (l: Listing, u: seq<Entry>, e: Entry)
    ensures Sound(l.crypto) && Represents(u, l.held) && l.Clean() && IsNewRevocation(l, e) && Permitted(l, e)
    ensures ClaimedOf(Shown(l, u)).Some? && ClaimedOf(Shown(l, u)).value.revocation.Some?
    ensures Represents(u + [e], With(l, e).held) && With(l, e).Clean()
    ensures ClaimedOf(Shown(With(l, e), u + [e])).Some? && ClaimedOf(Shown(With(l, e), u + [e])).value.revocation.Some?
    ensures !ClaimedOf(Shown(l, u)).value.revocation.value.receivedBefore
    ensures ClaimedOf(Shown(With(l, e), u + [e])).value.revocation.value.receivedBefore
  {
    l, u, e := Recording(Doubtful(), SONG, 4), Entries(4), Entry(At(4), Some([4]));
    DoubtfulShows();
    FifthIsPermitted();
    NinthIsLater(l, u, e);
    EndsDoubt(l, u, e);
    TableIsSound(Doubtful());
  }

  // ---- A recording whose audio is a certificate ----

  /** The audio is the bytes of the certificate its claim names, which a revocation withdraws. */
  function Circular(): seq<Signed> {
    [AClaimOf(Audio(At(1), 1), Some(At(1))), ACertificate(), ARevocationAt("9")]
  }

  function AllFetched(n: nat): seq<Replication.Fetched> {
    seq(n, i requires 0 <= i < n => Replication.Fetched(At(i), [i]))
  }

  lemma CircularIsNotSelfReferent()
    ensures Replication.NoSelfReference(TableOf(Circular()))
  {
    forall bytes
      ensures !Replication.IsAudioOf(TableOf(Circular()), bytes, bytes)
    {
      AtIsOneToOne(0, 1);
      var s := ReadFrom(Circular(), bytes);
      if s.Some? && s.value.payload.Claim? {
        assert bytes == [0];
      }
    }
  }

  lemma AllAreServed(table: seq<Signed>, audio: Audio, n: nat)
    ensures Replication.Serves(Recording(table, audio, n), AllFetched(n))
  {
    var fetched := AllFetched(n);
    HeldIs(n);
    forall h | h in Held(n)
      ensures exists i :: 0 <= i < |fetched| && fetched[i].hash == h
    {
      var i :| 0 <= i < n && h == At(i);
      assert fetched[i].hash == h;
    }
  }

  lemma CircularRevokes()
    ensures var l := Recording(Circular(), Audio(At(1), 1), 3);
      l.Clean() && At(2) in l.held && Replication.RevokesItsAudio(l, At(2))
  {
    LinkedIsClean(Circular(), Audio(At(1), 1), 3);
    LinkedPasses(Circular(), Audio(At(1), 1), 3, 2);
  }

  /** A clean recording that a second host does not take whole. */
  lemma ReplicationCanFail() returns (l: Listing, audio: Bytes, fetched: seq<Replication.Fetched>)
    ensures Sound(l.crypto) && Replication.NoSelfReference(l.crypto) && l.Clean() && Replication.Serves(l, fetched)
    ensures l.crypto.hash(audio) == l.audio.hash && |audio| == l.audio.size
    ensures !Replication.TakesAllKnown(l, audio, fetched)
  {
    l, audio, fetched := Recording(Circular(), Audio(At(1), 1), 3), [1], AllFetched(3);
    TableIsSound(Circular());
    CircularIsNotSelfReferent();
    CircularRevokes();
    AllAreServed(Circular(), Audio(At(1), 1), 3);
    Replication.ReplicationIsCompleteIff(l, audio, fetched);
  }

  // ---- A claim about a statement ----

  /** The second claim is about a song the host has, and the first about the bytes of the second. */
  function Nested(): seq<Signed> {
    [AClaimOf(Audio(At(1), 1), None), AClaimOf(Audio(At(9), 1), None)]
  }

  /** One of the claims is taken as soon as the bytes it is about are there. */
  lemma NestedIsTaken(i: nat, store: StatementHost.Store)
    requires i < 2 && var audio := Nested()[i].payload.blobHash; audio in store && |store[audio].bytes| == 1
    ensures StatementHost.Accepts(TableOf(Nested()), store, StatementHost.Sent([i], None))
  {
    AtIsOneToOne(1, 9);
    WrittenAs(Nested(), i);
    assert ReadFrom(Nested(), [i]) == Some(Nested()[i]);
  }

  /** A store and two claims in rank order, of which another order gets more stored. */
  lemma RankOrderCanLose()
      returns (c: Crypto, store: StatementHost.Store, ranked: seq<StatementHost.Sent>, order: seq<StatementHost.Sent>)
    ensures Sound(c) && StatementHost.Filed(c, store) && StatementHost.Ranked(c, ranked)
    ensures Replication.From(ranked, order)
    ensures !StatementHost.SubStore(StatementHost.UploadAll(c, store, order), StatementHost.UploadAll(c, store, ranked))
  {
    c, store := TableOf(Nested()), map[At(9) := StatementHost.Stored([9], StatementHost.AudioMime)];
    var x, y := StatementHost.Sent([0], None), StatementHost.Sent([1], None);
    ranked, order := [x, y], [y, x];
    TableIsSound(Nested());
    AtIsOneToOne(0, 1);
    AtIsOneToOne(0, 9);
    AtIsOneToOne(1, 9);
    NestedIsTaken(1, store);
    NestedIsTaken(0, StatementHost.Upload(c, store, y));
    assert ReadFrom(Nested(), [0]) == Some(Nested()[0]);
    Replication.ClaimOfAStatement(c, store, x, y);
  }
}

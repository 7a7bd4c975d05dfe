/**
 * Copying a recording's statements to another host (`blobClient.ts`): the order they are sent in,
 * what the host accepts of a recording its reader found clean, and why no other order does better.
 */
module Replication {
  import opened Wrappers
  import opened Statements
  import opened StatementHost
  import Reader

  // ---- The send order ----

  /** A fetched statement; the payload is what its bytes parse to. */
  datatype Fetched = Fetched(hash: Hash, bytes: Bytes)

  /** Inserts before the first of a higher rank, so equals keep their order. */
  function InsertByRank(c: Crypto, list: seq<Fetched>, x: Fetched): (r: seq<Fetched>)
    ensures forall y :: y in r <==> y == x || y in list
  {
    if list == [] then [x]
    else
      var n := |list| - 1;
      assert list == list[..n] + [list[n]];
      if Rank(c, list[n].bytes) <= Rank(c, x.bytes) then list + [x]
      else InsertByRank(c, list[..n], x) + [list[n]]
  }

  /** The stable sort by rank. */
  function SortByRank(c: Crypto, list: seq<Fetched>): (r: seq<Fetched>)
    ensures forall y :: y in r <==> y in list
  {
    if list == [] then []
    else
      assert list == list[..|list| - 1] + [list[|list| - 1]];
      InsertByRank(c, SortByRank(c, list[..|list| - 1]), list[|list| - 1])
  }

  ghost predicate InOrder(c: Crypto, list: seq<Fetched>) {
    forall i, j :: 0 <= i < j < |list| ==> Rank(c, list[i].bytes) <= Rank(c, list[j].bytes)
  }

  lemma {:induction false} InsertKeepsOrder(c: Crypto, list: seq<Fetched>, x: Fetched)
    requires InOrder(c, list)
    ensures InOrder(c, InsertByRank(c, list, x))
  {
    if list != [] {
      var n := |list| - 1;
      if Rank(c, list[n].bytes) > Rank(c, x.bytes) {
        var rest := InsertByRank(c, list[..n], x);
        InsertKeepsOrder(c, list[..n], x);
        forall i | 0 <= i < |rest|
          ensures Rank(c, rest[i].bytes) <= Rank(c, list[n].bytes)
        {
          assert rest[i] in rest;
        }
      }
    }
  }

  lemma {:induction false} SortIsRanked(c: Crypto, list: seq<Fetched>)
    ensures InOrder(c, SortByRank(c, list))
  {
    if list != [] {
      SortIsRanked(c, list[..|list| - 1]);
      InsertKeepsOrder(c, SortByRank(c, list[..|list| - 1]), list[|list| - 1]);
    }
  }

  /** What is of one rank, in its order. */
  function OfRank(c: Crypto, list: seq<Fetched>, rank: nat): seq<Fetched> {
    if list == [] then []
    else
      var n := |list| - 1;
      OfRank(c, list[..n], rank) + if Rank(c, list[n].bytes) == rank then [list[n]] else []
  }

  lemma {:induction false} InsertIsStable(c: Crypto, list: seq<Fetched>, x: Fetched, rank: nat)
    ensures OfRank(c, InsertByRank(c, list, x), rank) == OfRank(c, list + [x], rank)
  {
    assert (list + [x])[..|list|] == list;
    if list != [] {
      var n := |list| - 1;
      if Rank(c, list[n].bytes) > Rank(c, x.bytes) {
        var rest := InsertByRank(c, list[..n], x);
        InsertIsStable(c, list[..n], x, rank);
        assert (rest + [list[n]])[..|rest|] == rest && (list[..n] + [x])[..n] == list[..n];
      }
    }
  }

  /** The sort leaves out nothing, adds nothing, and keeps the order of what is of one rank. */
  lemma {:induction false} SortIsStable(c: Crypto, list: seq<Fetched>, rank: nat)
    ensures OfRank(c, SortByRank(c, list), rank) == OfRank(c, list, rank)
  {
    if list != [] {
      var n := |list| - 1;
      SortIsStable(c, list[..n], rank);
      InsertIsStable(c, SortByRank(c, list[..n]), list[n], rank);
      var front := SortByRank(c, list[..n]);
      assert (front + [list[n]])[..|front|] == front;
    }
  }

  /** The link a claim names, as far as its payload shows one. */
  function NamedBy(p: Payload): Option<Hash> {
    match p
    case Claim(_, _, _, _, _, _, _, deviceCert, _) => deviceCert
    case Misshapen(AClaim, _, link, _) => link
    case _ => None
  }

  predicate ClaimNames(c: Crypto, bytes: Bytes, link: Hash) {
    var s := c.parse(bytes);
    s.Some? && NamedBy(s.value.payload) == Some(link)
  }

  ghost predicate FirstToName(c: Crypto, list: seq<Fetched>, i: int, link: Hash) {
    && 0 <= i < |list| && ClaimNames(c, list[i].bytes, link)
    && forall j :: 0 <= j < i ==> !ClaimNames(c, list[j].bytes, link)
  }

  /** `claimNaming`: the first claim in the list that names the link. */
  function ClaimNaming(c: Crypto, list: seq<Fetched>, link: Hash): (r: Option<Hash>)
    ensures r.Some? ==> exists i :: FirstToName(c, list, i, link) && list[i].hash == r.value
    ensures r.None? ==> forall i :: 0 <= i < |list| ==> !ClaimNames(c, list[i].bytes, link)
  {
    if list == [] then None
    else if ClaimNames(c, list[0].bytes, link) then Some(list[0].hash)
    else
      assert list == [list[0]] + list[1..];
      assert forall i :: FirstToName(c, list[1..], i, link) ==> FirstToName(c, list, i + 1, link);
      ClaimNaming(c, list[1..], link)
  }

  function ToSend(c: Crypto, sorted: seq<Fetched>, x: Fetched): Sent {
    Sent(x.bytes, if Rank(c, x.bytes) == 1 then ClaimNaming(c, sorted, x.hash) else None)
  }

  /** `fetchStatements`, once the bytes are here. */
  function SendOrder(c: Crypto, fetched: seq<Fetched>): (r: seq<Sent>)
    ensures |r| == |SortByRank(c, fetched)|
  {
    var sorted := SortByRank(c, fetched);
    seq(|sorted|, i requires 0 <= i < |sorted| => ToSend(c, sorted, sorted[i]))
  }

  lemma SendOrderIsRanked(c: Crypto, fetched: seq<Fetched>)
    ensures Ranked(c, SendOrder(c, fetched))
  {
    SortIsRanked(c, fetched);
  }

  /** The host's answer to each upload, at its turn. */
  function Answers(c: Crypto, store: Store, sent: seq<Sent>): (r: seq<bool>)
    ensures |r| == |sent|
  {
    if sent == [] then []
    else
      var front := sent[..|sent| - 1];
      Answers(c, store, front) + [Accepts(c, UploadAll(c, store, front), sent[|sent| - 1])]
  }

  /** The copying loop of `replicateBlob`, for one host that took the audio. */
  method Replicate(c: Crypto, store: Store, fetched: seq<Fetched>) returns (held: Store, taken: seq<bool>)
    ensures held == UploadAll(c, store, SendOrder(c, fetched))
    ensures taken == Answers(c, store, SendOrder(c, fetched))
  {
    var sent := SendOrder(c, fetched);
    held, taken := store, [];
    for i := 0 to |sent|
      invariant held == UploadAll(c, store, sent[..i]) && taken == Answers(c, store, sent[..i])
    {
      UploadAllNext(c, store, sent, i);
      taken := taken + [Accepts(c, held, sent[i])];
      held := Upload(c, held, sent[i]);
    }
    assert sent[..|sent|] == sent;
  }

  lemma UploadAllNext(c: Crypto, store: Store, sent: seq<Sent>, i: nat)
    requires i < |sent|
    ensures UploadAll(c, store, sent[..i + 1]) == Upload(c, UploadAll(c, store, sent[..i]), sent[i])
    ensures Answers(c, store, sent[..i + 1]) == Answers(c, store, sent[..i])
      + [Accepts(c, UploadAll(c, store, sent[..i]), sent[i])]
  {
    assert sent[..i + 1][..i] == sent[..i];
  }

  // ---- No order does better ----

  /** Every statement goes with the same claim address whenever it is sent. */
  ghost predicate From(batch: seq<Sent>, order: seq<Sent>) {
    forall i :: 0 <= i < |order| ==> order[i] in batch
  }

  /** A claim refused in its turn that the host would take now. */
  predicate Unlocked(c: Crypto, final: Store, x: Sent) {
    Rank(c, x.bytes) == 0 && c.hash(x.bytes) !in final && Accepts(c, final, x)
  }

  /** A claim or link held at the end was held before anything of a higher rank was sent. */
  lemma HeldInTime(c: Crypto, store: Store, ranked: seq<Sent>, k: nat, h: Hash)
    requires Filed(c, store) && Ranked(c, ranked) && k < |ranked|
    requires h in UploadAll(c, store, ranked)
    requires UploadAll(c, store, ranked)[h].mime == StatementMime
    requires Rank(c, UploadAll(c, store, ranked)[h].bytes) < Rank(c, ranked[k].bytes)
    ensures h in UploadAll(c, store, ranked[..k])
    ensures UploadAll(c, store, ranked[..k])[h] == UploadAll(c, store, ranked)[h]
  {
    UploadAllKeeps(c, store, ranked, k);
    if h !in UploadAll(c, store, ranked[..k]) {
      CameLater(c, store, ranked, k, h);
    }
  }

  /** In rank order, what the host would take at the end it already took, claims aside. */
  lemma RankedTakes(c: Crypto, store: Store, ranked: seq<Sent>, k: nat)
    requires Filed(c, store) && Ranked(c, ranked) && k < |ranked| && Rank(c, ranked[k].bytes) > 0
    requires Accepts(c, UploadAll(c, store, ranked), ranked[k])
    ensures Accepts(c, UploadAll(c, store, ranked[..k]), ranked[k])
  {
    var final, now, x := UploadAll(c, store, ranked), UploadAll(c, store, ranked[..k]), ranked[k];
    var p := c.parse(x.bytes).value.payload;
    forall address | StoredClaim(c, final, address).Some?
      ensures StoredClaim(c, now, address) == StoredClaim(c, final, address)
    {
      HeldInTime(c, store, ranked, k, address);
    }
    if p.Session? {
      var i :| 0 <= i < |p.claims| && StoredClaim(c, final, p.claims[i]).Some?;
      assert StoredClaim(c, now, p.claims[i]).Some?;
    } else if p.Revocation? {
      HeldInTime(c, store, ranked, k, p.deviceLink);
    }
  }

  lemma TakenIsHeld(c: Crypto, store: Store, sent: seq<Sent>, k: nat)
    requires Filed(c, store) && k < |sent| && Accepts(c, UploadAll(c, store, sent[..k]), sent[k])
    ensures c.hash(sent[k].bytes) in UploadAll(c, store, sent)
  {
    UploadAllKeeps(c, store, sent, k + 1);
    assert sent[..k + 1][..k] == sent[..k];
  }

  /** Whatever any order gets stored, rank order gets stored. */
  lemma {:induction false} NoOrderDoesBetter(c: Crypto, store: Store, ranked: seq<Sent>, order: seq<Sent>)
    requires Sound(c) && Filed(c, store) && Ranked(c, ranked) && From(ranked, order)
    requires forall x :: x in ranked ==> !Unlocked(c, UploadAll(c, store, ranked), x)
    ensures SubStore(UploadAll(c, store, order), UploadAll(c, store, ranked))
    decreases |order|
  {
    var final := UploadAll(c, store, ranked);
    UploadAllKeeps(c, store, ranked, 0);
    if order != [] {
      var n := |order| - 1;
      NoOrderDoesBetter(c, store, ranked, order[..n]);
      var before, x := UploadAll(c, store, order[..n]), order[n];
      UploadAllKeeps(c, store, order[..n], 0);
      if Accepts(c, before, x) && c.hash(x.bytes) !in before {
        AcceptsIsMonotone(c, before, final, x);
        var k :| 0 <= k < |ranked| && ranked[k] == x;
        if Rank(c, x.bytes) > 0 {
          RankedTakes(c, store, ranked, k);
          TakenIsHeld(c, store, ranked, k);
        }
        assert c.hash(x.bytes) in final;
        SameStored(c, store, ranked, order[..n], x);
      }
    }
  }

  /** Bytes that were not there before are filed as a statement by either order. */
  lemma SameStored(c: Crypto, store: Store, ranked: seq<Sent>, order: seq<Sent>, x: Sent)
    requires Sound(c) && Filed(c, store)
    requires c.hash(x.bytes) in UploadAll(c, store, ranked) && c.hash(x.bytes) !in UploadAll(c, store, order)
    ensures UploadAll(c, store, ranked)[c.hash(x.bytes)] == Stored(x.bytes, StatementMime)
  {
    var h := c.hash(x.bytes);
    UploadAllKeeps(c, store, order, 0);
    assert UploadAll(c, store, ranked[..0]) == store;
    CameLater(c, store, ranked, 0, h);
  }

  /**
   * Rank order is optimal, over every other order and however often a statement is sent again,
   * exactly when no claim it got refused would be taken once everything has been sent. A claim is
   * only refused late when the audio it names is itself one of the statements.
   */
  lemma RankOrderIsOptimalIff(c: Crypto, store: Store, ranked: seq<Sent>)
    requires Sound(c) && Filed(c, store) && Ranked(c, ranked)
    ensures (forall order :: From(ranked, order) ==> SubStore(UploadAll(c, store, order), UploadAll(c, store, ranked)))
      <==> forall x :: x in ranked ==> !Unlocked(c, UploadAll(c, store, ranked), x)
  {
    var final := UploadAll(c, store, ranked);
    if forall x :: x in ranked ==> !Unlocked(c, final, x) {
      forall order | From(ranked, order)
        ensures SubStore(UploadAll(c, store, order), final)
      {
        NoOrderDoesBetter(c, store, ranked, order);
      }
    } else {
      var x :| x in ranked && Unlocked(c, final, x);
      var again := ranked + [x];
      assert again[..|ranked|] == ranked;
      assert From(ranked, again) && c.hash(x.bytes) in UploadAll(c, store, again);
    }
  }

  /** The second bytes are a claim that names the first as its audio. */
  predicate IsAudioOf(c: Crypto, audio: Bytes, claim: Bytes) {
    var s := c.parse(claim);
    s.Some? && s.value.payload.Claim? && s.value.payload.blobHash == c.hash(audio)
  }

  /** The order is optimal when no claim names one of the other statements as its audio. */
  lemma RankOrderIsOptimal(c: Crypto, store: Store, ranked: seq<Sent>, order: seq<Sent>)
    requires Sound(c) && Filed(c, store) && Ranked(c, ranked) && From(ranked, order)
    requires forall x, y :: x in ranked && y in ranked && IsAudioOf(c, y.bytes, x.bytes) ==> c.hash(y.bytes) in store
    ensures SubStore(UploadAll(c, store, order), UploadAll(c, store, ranked))
  {
    forall x | x in ranked
      ensures !Unlocked(c, UploadAll(c, store, ranked), x)
    {
      var k :| 0 <= k < |ranked| && ranked[k] == x;
      NotUnlocked(c, store, ranked, k);
    }
    NoOrderDoesBetter(c, store, ranked, order);
  }

  /** A claim whose audio was there from the start was taken in its turn. */
  lemma NotUnlocked(c: Crypto, store: Store, ranked: seq<Sent>, k: nat)
    requires Filed(c, store) && k < |ranked|
    requires forall y :: y in ranked && IsAudioOf(c, y.bytes, ranked[k].bytes) ==> c.hash(y.bytes) in store
    ensures !Unlocked(c, UploadAll(c, store, ranked), ranked[k])
  {
    var final, x := UploadAll(c, store, ranked), ranked[k];
    if Unlocked(c, final, x) {
      var audio := c.parse(x.bytes).value.payload.blobHash;
      UploadAllKeeps(c, store, ranked, k);
      UploadAllKeeps(c, store, ranked[..k], 0);
      if audio !in store {
        CameLater(c, store, ranked, 0, audio);
      }
      TakenIsHeld(c, store, ranked, k);
    }
  }

  /** Where the claim's audio is another of the statements, sending that one first gets more stored. */
  lemma ClaimOfAStatement(c: Crypto, store: Store, x: Sent, y: Sent)
    requires Filed(c, store) && c.hash(y.bytes) !in store && c.hash(x.bytes) !in store
    requires c.hash(x.bytes) != c.hash(y.bytes)
    requires IsAudioOf(c, y.bytes, x.bytes) && Accepts(c, store, y) && Accepts(c, Upload(c, store, y), x)
    ensures c.hash(x.bytes) !in UploadAll(c, store, [x, y]) && c.hash(x.bytes) in UploadAll(c, store, [y, x])
  {
    assert [x, y][..1] == [x] && [y, x][..1] == [y] && [x][..0] == [] && [y][..0] == [];
    assert UploadAll(c, store, [x]) == Upload(c, store, x) && UploadAll(c, store, [y]) == Upload(c, store, y);
    assert !Accepts(c, store, x);
  }

  // ---- A clean recording is copied whole ----

  /** No claim names its own address as its audio. */
  ghost predicate NoSelfReference(c: Crypto) {
    forall bytes :: !IsAudioOf(c, bytes, bytes)
  }

  /** The statements of a clean listing, all served, in some order. */
  ghost predicate Serves(l: Reader.Listing, fetched: seq<Fetched>) {
    && (forall i :: 0 <= i < |fetched| ==>
      fetched[i].hash in l.held && l.held[fetched[i].hash] == Some(fetched[i].bytes))
    && (forall h :: h in l.held ==> exists i :: 0 <= i < |fetched| && fetched[i].hash == h)
  }

  /** A statement of a type this version knows. */
  predicate Known(c: Crypto, bytes: Bytes) {
    var s := c.parse(bytes);
    s.Some? && KindOf(s.value.payload).Some?
  }

  /** The host already has the audio and nothing else. */
  function WithAudio(l: Reader.Listing, audio: Bytes): Store {
    map[l.audio.hash := Stored(audio, AudioMime)]
  }

  /** After some uploads: the audio is as it was, and what was sent is held as a statement. */
  ghost predicate Copied(l: Reader.Listing, audio: Bytes, store: Store, sent: seq<Sent>) {
    && Filed(l.crypto, store)
    && l.audio.hash in store && store[l.audio.hash] == Stored(audio, AudioMime)
    && (forall h :: h in store && h != l.audio.hash ==> store[h].mime == StatementMime)
    && forall i :: 0 <= i < |sent| && Known(l.crypto, sent[i].bytes) ==> IsHeld(l, store, sent[i].bytes)
  }

  predicate IsHeld(l: Reader.Listing, store: Store, bytes: Bytes) {
    var h := l.crypto.hash(bytes);
    h in store && (h != l.audio.hash ==> store[h] == Stored(bytes, StatementMime))
  }

  /** What a clean listing says of one of its statements of a known type. */
  lemma CleanStatement(l: Reader.Listing, fetched: seq<Fetched>, i: nat)
    requires l.Clean() && Serves(l, fetched) && i < |fetched|
    ensures var h, bytes := fetched[i].hash, fetched[i].bytes;
      && l.crypto.hash(bytes) == h && l.crypto.parse(bytes).Some?
      && l.crypto.write(l.crypto.parse(bytes).value) == Some(bytes)
      && (Known(l.crypto, bytes) ==>
        l.Passes(h) && l.At(h) == l.crypto.parse(bytes).value.payload && l.ProblemOf(h) == None)
  {
    assert l.ProblemOf(fetched[i].hash) == None;
  }

  /** A passing claim or link that was sent already is found by the host, unless it is the audio. */
  lemma FindsHeld(l: Reader.Listing, audio: Bytes, store: Store, sent: seq<Sent>, k: nat)
    requires Copied(l, audio, store, sent) && k < |sent|
    requires var h := l.crypto.hash(sent[k].bytes);
      l.Passes(h) && h != l.audio.hash && l.held[h] == Some(sent[k].bytes)
    ensures var h := l.crypto.hash(sent[k].bytes);
      && (l.HasClaim(h) ==> StoredClaim(l.crypto, store, h) == Some(l.At(h)))
      && (l.HasLink(h) ==> StoredLink(l.crypto, store, h) == Some(l.At(h)))
  {
  }

  lemma ClaimIsNotAudio(l: Reader.Listing, h: Hash)
    requires NoSelfReference(l.crypto) && l.HasClaim(h)
    ensures h != l.audio.hash && l.At(h).blobHash == l.audio.hash
  {
    assert !IsAudioOf(l.crypto, l.held[h].value, l.held[h].value);
  }

  /** Everything of a lower rank has been sent before. */
  lemma SentBefore(l: Reader.Listing, fetched: seq<Fetched>, i: nat, h: Hash) returns (k: nat)
    requires l.Clean() && Serves(l, fetched) && l.Passes(h) && i < |SendOrder(l.crypto, fetched)|
    requires RankOf(l.At(h)) < Rank(l.crypto, SendOrder(l.crypto, fetched)[i].bytes)
    ensures k < i && l.held[h] == Some(SendOrder(l.crypto, fetched)[k].bytes)
    ensures l.crypto.hash(SendOrder(l.crypto, fetched)[k].bytes) == h
    ensures Known(l.crypto, SendOrder(l.crypto, fetched)[k].bytes)
  {
    var sorted := SortByRank(l.crypto, fetched);
    var j :| 0 <= j < |fetched| && fetched[j].hash == h;
    assert fetched[j] in sorted;
    k :| 0 <= k < |sorted| && sorted[k] == fetched[j];
    CleanStatement(l, fetched, j);
    SendOrderIsRanked(l.crypto, fetched);
    var sent := SendOrder(l.crypto, fetched);
    assert sent[k].bytes == fetched[j].bytes && Rank(l.crypto, sent[k].bytes) < Rank(l.crypto, sent[i].bytes);
  }

  /** The claim that goes with a link is a passing claim that names it. */
  lemma ForClaimIsNamed(l: Reader.Listing, fetched: seq<Fetched>, link: Hash)
    requires l.Clean() && Serves(l, fetched) && l.HasLink(link)
    ensures var claim := ClaimNaming(l.crypto, SortByRank(l.crypto, fetched), link);
      claim.Some? && l.Names(claim.value, link) && l.At(claim.value).deviceKey == l.At(link).deviceKey
  {
    var sorted := SortByRank(l.crypto, fetched);
    var claim := ClaimNaming(l.crypto, sorted, link);
    SomeClaimNames(l, fetched, sorted, link);
    var i :| 0 <= i < |sorted| && sorted[i].hash == claim.value && ClaimNames(l.crypto, sorted[i].bytes, link);
    assert sorted[i] in fetched;
    var m :| 0 <= m < |fetched| && fetched[m] == sorted[i];
    NamesAsServed(l, fetched, m, link);
    LinkIsNamed(l, link, claim.value);
  }

  lemma NamesAsServed(l: Reader.Listing, fetched: seq<Fetched>, m: nat, link: Hash)
    requires l.Clean() && Serves(l, fetched) && m < |fetched| && ClaimNames(l.crypto, fetched[m].bytes, link)
    ensures l.Names(fetched[m].hash, link)
  {
    CleanStatement(l, fetched, m);
  }

  lemma SomeClaimNames(l: Reader.Listing, fetched: seq<Fetched>, sorted: seq<Fetched>, link: Hash)
    requires l.Clean() && Serves(l, fetched) && l.HasLink(link) && forall y :: y in sorted <==> y in fetched
    ensures exists i :: 0 <= i < |sorted| && ClaimNames(l.crypto, sorted[i].bytes, link)
  {
    assert l.ProblemOf(link) == None;
    var named :| named in l.held && l.Names(named, link);
    var j :| 0 <= j < |fetched| && fetched[j].hash == named;
    CleanStatement(l, fetched, j);
    assert fetched[j] in sorted && ClaimNames(l.crypto, fetched[j].bytes, link);
  }

  lemma LinkIsNamed(l: Reader.Listing, link: Hash, claim: Hash)
    requires l.Clean() && l.HasLink(link) && l.Names(claim, link)
    ensures l.At(claim).deviceKey == l.At(link).deviceKey
  {
    assert l.ProblemOf(link) == None;
  }

  /** The one thing in the host's way: a revocation of a link whose bytes are the recording's own audio. */
  ghost predicate RevokesItsAudio(l: Reader.Listing, h: Hash) {
    l.HasRevocation(h) && l.At(h).deviceLink == l.audio.hash
  }

  ghost predicate Fits(l: Reader.Listing, h: Hash)
    requires h in l.held && l.held[h].Some?
  {
    Known(l.crypto, l.held[h].value) ==> |l.held[h].value| <= MAX_STATEMENT_BYTES
  }

  lemma AcceptsClaim(l: Reader.Listing, audio: Bytes, store: Store, sent: seq<Sent>, h: Hash, x: Sent)
    requires l.Clean() && Copied(l, audio, store, sent) && |audio| == l.audio.size
    requires l.HasClaim(h) && l.held[h] == Some(x.bytes)
    ensures CheckUpload(l.crypto, store, x.bytes, x.forClaim) == None
  {
  }

  lemma AcceptsLink(l: Reader.Listing, store: Store, h: Hash, x: Sent)
    requires l.HasLink(h) && l.held[h] == Some(x.bytes)
    requires x.forClaim.Some? && l.Names(x.forClaim.value, h)
    requires StoredClaim(l.crypto, store, x.forClaim.value) == Some(l.At(x.forClaim.value))
    requires l.At(x.forClaim.value).deviceKey == l.At(h).deviceKey
    ensures CheckUpload(l.crypto, store, x.bytes, x.forClaim) == None
  {
  }

  lemma AcceptsReceipt(l: Reader.Listing, store: Store, h: Hash, x: Sent)
    requires l.HasReceipt(h) && l.held[h] == Some(x.bytes) && StoredClaim(l.crypto, store, l.At(h).claim).Some?
    ensures CheckUpload(l.crypto, store, x.bytes, x.forClaim) == None
  {
  }

  lemma AcceptsSession(l: Reader.Listing, store: Store, h: Hash, x: Sent, claim: Hash)
    requires l.Passes(h) && l.At(h).Session? && l.held[h] == Some(x.bytes)
    requires claim in l.At(h).claims && StoredClaim(l.crypto, store, claim).Some?
    ensures CheckUpload(l.crypto, store, x.bytes, x.forClaim) == None
  {
    var i :| 0 <= i < |l.At(h).claims| && l.At(h).claims[i] == claim;
  }

  lemma AcceptsRevocation(l: Reader.Listing, store: Store, h: Hash, x: Sent)
    requires l.Clean() && l.HasRevocation(h) && l.held[h] == Some(x.bytes)
    requires l.HasLink(l.At(h).deviceLink)
      && StoredLink(l.crypto, store, l.At(h).deviceLink) == Some(l.At(l.At(h).deviceLink))
    ensures CheckUpload(l.crypto, store, x.bytes, x.forClaim) == None
  {
    assert l.ProblemOf(h) == None;
  }

  /** With what it needs already copied, the next statement passes the host's checks. */
  lemma NextPasses(l: Reader.Listing, audio: Bytes, store: Store, fetched: seq<Fetched>, i: nat, h: Hash)
    requires NoSelfReference(l.crypto) && l.Clean() && Serves(l, fetched)
    requires |audio| == l.audio.size && i < |SendOrder(l.crypto, fetched)|
    requires l.Passes(h) && l.held[h] == Some(SendOrder(l.crypto, fetched)[i].bytes) && !RevokesItsAudio(l, h)
    requires Copied(l, audio, store, SendOrder(l.crypto, fetched)[..i])
    ensures var x := SendOrder(l.crypto, fetched)[i]; CheckUpload(l.crypto, store, x.bytes, x.forClaim) == None
  {
    var sent, p := SendOrder(l.crypto, fetched), l.At(h);
    var x := sent[i];
    assert l.ProblemOf(h) == None && Rank(l.crypto, x.bytes) == RankOf(p);
    if p.Claim? {
      AcceptsClaim(l, audio, store, sent[..i], h, x);
    } else if p.Receipt? {
      FindsClaim(l, audio, store, fetched, i, p.claim);
      AcceptsReceipt(l, store, h, x);
    } else if p.Session? {
      var claim :| claim in l.held && l.InSession(claim, p.sessionId) && claim in p.claims;
      FindsClaim(l, audio, store, fetched, i, claim);
      AcceptsSession(l, store, h, x, claim);
    } else if IsLink(p) {
      LinkPasses(l, audio, store, fetched, i, h);
    } else {
      var k := SentBefore(l, fetched, i, p.deviceLink);
      FindsHeld(l, audio, store, sent[..i], k);
      AcceptsRevocation(l, store, h, x);
    }
  }

  lemma LinkPasses(l: Reader.Listing, audio: Bytes, store: Store, fetched: seq<Fetched>, i: nat, h: Hash)
    requires NoSelfReference(l.crypto) && l.Clean() && Serves(l, fetched)
    requires i < |SendOrder(l.crypto, fetched)| && l.HasLink(h)
    requires l.held[h] == Some(SendOrder(l.crypto, fetched)[i].bytes)
    requires Rank(l.crypto, SendOrder(l.crypto, fetched)[i].bytes) == 1
    requires Copied(l, audio, store, SendOrder(l.crypto, fetched)[..i])
    ensures var x := SendOrder(l.crypto, fetched)[i]; CheckUpload(l.crypto, store, x.bytes, x.forClaim) == None
  {
    var x := SendOrder(l.crypto, fetched)[i];
    ForClaimIsNamed(l, fetched, h);
    SentForClaim(l, fetched, i, h);
    FindsClaim(l, audio, store, fetched, i, x.forClaim.value);
    AcceptsLink(l, store, h, x);
  }

  lemma FindsClaim(l: Reader.Listing, audio: Bytes, store: Store, fetched: seq<Fetched>, i: nat, claim: Hash)
    requires NoSelfReference(l.crypto) && l.Clean() && Serves(l, fetched) && l.HasClaim(claim)
    requires i < |SendOrder(l.crypto, fetched)| && Rank(l.crypto, SendOrder(l.crypto, fetched)[i].bytes) > 0
    requires Copied(l, audio, store, SendOrder(l.crypto, fetched)[..i])
    ensures StoredClaim(l.crypto, store, claim) == Some(l.At(claim))
  {
    var k := SentBefore(l, fetched, i, claim);
    ClaimIsNotAudio(l, claim);
    FindsHeld(l, audio, store, SendOrder(l.crypto, fetched)[..i], k);
  }

  lemma SentForClaim(l: Reader.Listing, fetched: seq<Fetched>, i: nat, h: Hash)
    requires l.Clean() && Serves(l, fetched) && i < |SendOrder(l.crypto, fetched)|
    requires l.HasLink(h) && l.crypto.hash(SendOrder(l.crypto, fetched)[i].bytes) == h
    requires Rank(l.crypto, SendOrder(l.crypto, fetched)[i].bytes) == 1
    ensures SendOrder(l.crypto, fetched)[i].forClaim == ClaimNaming(l.crypto, SortByRank(l.crypto, fetched), h)
  {
    var x := SortByRank(l.crypto, fetched)[i];
    var m := IndexOf(fetched, x);
    CleanStatement(l, fetched, m);
  }

  lemma IndexOf(list: seq<Fetched>, x: Fetched) returns (m: nat)
    requires x in list
    ensures m < |list| && list[m] == x
  {
    m :| 0 <= m < |list| && list[m] == x;
  }

  /** The statement sent at a place, as the listing has it. */
  lemma SentIsListed(l: Reader.Listing, fetched: seq<Fetched>, i: nat)
    requires l.Clean() && Serves(l, fetched) && i < |SendOrder(l.crypto, fetched)|
    ensures var bytes := SendOrder(l.crypto, fetched)[i].bytes;
      var h := l.crypto.hash(bytes);
      h in l.held && l.held[h] == Some(bytes) && (Known(l.crypto, bytes) ==> l.Passes(h))
  {
    var sorted := SortByRank(l.crypto, fetched);
    assert sorted[i] in fetched;
    var m :| 0 <= m < |fetched| && fetched[m] == sorted[i];
    CleanStatement(l, fetched, m);
  }

  /** After any number of uploads, everything of a known type that was sent is held. */
  lemma {:induction false} AllIsCopied(l: Reader.Listing, audio: Bytes, start: Store, fetched: seq<Fetched>, i: nat)
    requires Sound(l.crypto) && NoSelfReference(l.crypto) && l.Clean() && Serves(l, fetched)
    requires Copied(l, audio, start, []) && |audio| == l.audio.size
    requires i <= |SendOrder(l.crypto, fetched)|
    requires forall h :: h in l.held ==> !RevokesItsAudio(l, h) && Fits(l, h)
    ensures var sent := SendOrder(l.crypto, fetched)[..i];
      Copied(l, audio, UploadAll(l.crypto, start, sent), sent)
  {
    var sent := SendOrder(l.crypto, fetched);
    if i == 0 {
      assert sent[..0] == [];
    } else {
      AllIsCopied(l, audio, start, fetched, i - 1);
      UploadAllNext(l.crypto, start, sent, i - 1);
      CopiedNext(l, audio, UploadAll(l.crypto, start, sent[..i - 1]), fetched, i - 1);
    }
  }

  lemma AudioIsCopied(l: Reader.Listing, audio: Bytes)
    requires l.crypto.hash(audio) == l.audio.hash
    ensures Copied(l, audio, WithAudio(l, audio), [])
  {
  }

  lemma CopiedNext(l: Reader.Listing, audio: Bytes, store: Store, fetched: seq<Fetched>, i: nat)
    requires Sound(l.crypto) && NoSelfReference(l.crypto) && l.Clean() && Serves(l, fetched)
    requires |audio| == l.audio.size && i < |SendOrder(l.crypto, fetched)|
    requires forall h :: h in l.held ==> !RevokesItsAudio(l, h) && Fits(l, h)
    requires Copied(l, audio, store, SendOrder(l.crypto, fetched)[..i])
    ensures var sent := SendOrder(l.crypto, fetched); Copied(l, audio, Upload(l.crypto, store, sent[i]), sent[..i + 1])
  {
    var sent := SendOrder(l.crypto, fetched);
    NextIsAccepted(l, audio, store, fetched, i);
    StillCopied(l, audio, store, sent[..i], sent[i]);
    assert sent[..i + 1] == sent[..i] + [sent[i]];
  }

  lemma NextIsAccepted(l: Reader.Listing, audio: Bytes, store: Store, fetched: seq<Fetched>, i: nat)
    requires NoSelfReference(l.crypto) && l.Clean() && Serves(l, fetched)
    requires |audio| == l.audio.size && i < |SendOrder(l.crypto, fetched)|
    requires forall h :: h in l.held ==> !RevokesItsAudio(l, h) && Fits(l, h)
    requires Copied(l, audio, store, SendOrder(l.crypto, fetched)[..i])
    ensures var x := SendOrder(l.crypto, fetched)[i]; Known(l.crypto, x.bytes) ==> Accepts(l.crypto, store, x)
  {
    var x := SendOrder(l.crypto, fetched)[i];
    var h := l.crypto.hash(x.bytes);
    SentIsListed(l, fetched, i);
    assert Fits(l, h) && !RevokesItsAudio(l, h);
    if Known(l.crypto, x.bytes) {
      NextPasses(l, audio, store, fetched, i, h);
    }
  }

  lemma StillCopied(l: Reader.Listing, audio: Bytes, store: Store, sent: seq<Sent>, x: Sent)
    requires Sound(l.crypto) && Copied(l, audio, store, sent)
    requires Known(l.crypto, x.bytes) ==> Accepts(l.crypto, store, x)
    ensures Copied(l, audio, Upload(l.crypto, store, x), sent + [x])
  {
  }

  lemma {:induction false} AnswerAt(c: Crypto, store: Store, sent: seq<Sent>, i: nat)
    requires i < |sent|
    ensures Answers(c, store, sent)[i] == Accepts(c, UploadAll(c, store, sent[..i]), sent[i])
    decreases |sent|
  {
    var n := |sent| - 1;
    if i < n {
      AnswerAt(c, store, sent[..n], i);
      assert sent[..n][..i] == sent[..i];
    }
  }

  lemma {:induction false} AudioStays(l: Reader.Listing, audio: Bytes, sent: seq<Sent>)
    ensures var store := UploadAll(l.crypto, WithAudio(l, audio), sent);
      l.audio.hash in store && store[l.audio.hash] == Stored(audio, AudioMime)
  {
    if sent != [] {
      AudioStays(l, audio, sent[..|sent| - 1]);
    }
  }

  /** A statement that does not fit, or revokes the audio's bytes, is refused in its turn. */
  lemma RefusedInTurn(l: Reader.Listing, audio: Bytes, fetched: seq<Fetched>, h: Hash) returns (i: nat)
    requires l.Clean() && Serves(l, fetched) && h in l.held && (RevokesItsAudio(l, h) || !Fits(l, h))
    ensures i < |SendOrder(l.crypto, fetched)| && Known(l.crypto, SendOrder(l.crypto, fetched)[i].bytes)
    ensures !Answers(l.crypto, WithAudio(l, audio), SendOrder(l.crypto, fetched))[i]
  {
    var sorted := SortByRank(l.crypto, fetched);
    var j :| 0 <= j < |fetched| && fetched[j].hash == h;
    assert fetched[j] in sorted;
    i := IndexOf(sorted, fetched[j]);
    CleanStatement(l, fetched, j);
    AudioStays(l, audio, SendOrder(l.crypto, fetched)[..i]);
    AnswerAt(l.crypto, WithAudio(l, audio), SendOrder(l.crypto, fetched), i);
  }

  /**
   * A host that holds the audio and nothing else takes every statement of a known type of a clean
   * recording, in the order they are sent, exactly when each is within the size limit and none
   * revokes a link whose bytes are the recording's own audio.
   */
  lemma ReplicationIsCompleteIff(l: Reader.Listing, audio: Bytes, fetched: seq<Fetched>)
    requires Sound(l.crypto) && NoSelfReference(l.crypto) && l.Clean() && Serves(l, fetched)
    requires l.crypto.hash(audio) == l.audio.hash && |audio| == l.audio.size
    ensures TakesAllKnown(l, audio, fetched) <==> forall h :: h in l.held ==> !RevokesItsAudio(l, h) && Fits(l, h)
  {
    var c, sent, start := l.crypto, SendOrder(l.crypto, fetched), WithAudio(l, audio);
    if forall h :: h in l.held ==> !RevokesItsAudio(l, h) && Fits(l, h) {
      forall i | 0 <= i < |sent| && Known(c, sent[i].bytes)
        ensures Answers(c, start, sent)[i]
      {
        AudioIsCopied(l, audio);
        AllIsCopied(l, audio, WithAudio(l, audio), fetched, i);
        NextIsAccepted(l, audio, UploadAll(c, start, sent[..i]), fetched, i);
        AnswerAt(c, start, sent, i);
      }
    } else {
      var h :| h in l.held && (RevokesItsAudio(l, h) || !Fits(l, h));
      var i := RefusedInTurn(l, audio, fetched, h);
    }
  }

  ghost predicate TakesAllKnown(l: Reader.Listing, audio: Bytes, fetched: seq<Fetched>) {
    var sent := SendOrder(l.crypto, fetched);
    forall i :: 0 <= i < |sent| && Known(l.crypto, sent[i].bytes) ==> Answers(l.crypto, WithAudio(l, audio), sent)[i]
  }
}

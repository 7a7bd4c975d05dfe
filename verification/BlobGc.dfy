/**
 * The collector of unreferenced blobs (`blobGc.ts`): it marks from every root document and removes
 * exactly what nothing reaches, or removes nothing at all.
 */
module BlobGc {
  import opened Wrappers

  type Url = string
  type Hash = string

  /** A document as far as the collector reads it. An entry of a list that is no string is `None`. */
  datatype Doc = Doc(recordings: Option<seq<Option<Url>>>, blob: Option<Hash>, statements: Option<seq<Option<Hash>>>)

  /** A stored object; `ctime` is when the store took it. */
  datatype Object = Object(size: nat, ctime: int, links: nat, isStatement: bool, refs: set<Url>)

  datatype Abort = RootUnresolved(url: Url) | NoRoots | RecordingUnresolved(url: Url)

  datatype Result = Result(scanned: nat, live: nat, swept: seq<Hash>, skippedYoung: nat, reclaimedBytes: nat,
    stillHardlinked: nat, roots: seq<Url>, aborted: Option<Abort>)

  /** What a sweep is given. A document resolves when it is in `docs`. */
  datatype Setup = Setup(docs: map<Url, Doc>, seeds: seq<Url>, onDisk: seq<Url>, graceMs: int, now: int) {

    predicate IsRoot(url: Url) {
      (url in seeds || url in onDisk) && url in docs && docs[url].recordings.Some?
    }

    predicate Reaches(recording: Url) {
      exists root :: root in docs && IsRoot(root) && Some(recording) in docs[root].recordings.value
    }

    /** A reachable recording names the hash as its audio or one of its statements. */
    predicate IsLive(h: Hash) {
      exists r :: r in docs && Reaches(r) && Names(docs[r], h)
    }

    predicate Owns(url: Url) {
      IsRoot(url) || Reaches(url)
    }

    predicate LostSeed(url: Url) {
      url in seeds && url !in docs
    }

    ghost predicate LostRecording(url: Url) {
      Reaches(url) && url !in docs
    }

    /** The whole sweep is abandoned. */
    ghost predicate Aborts(objects: map<Hash, Object>) {
      || (exists url :: LostSeed(url))
      || ((forall url :: !IsRoot(url)) && objects != map[])
      || (exists r :: LostRecording(r))
    }

    /** The reason that is given: a seeded root comes before the lack of any root, and that before a recording. */
    ghost predicate IsReason(why: Abort, objects: map<Hash, Object>) {
      match why
      case RootUnresolved(url) => LostSeed(url)
      case NoRoots => (forall url :: !LostSeed(url)) && (forall url :: !IsRoot(url)) && objects != map[]
      case RecordingUnresolved(url) =>
        (forall root :: !LostSeed(root)) && (exists root :: IsRoot(root)) && LostRecording(url)
    }

    /** What nothing reaches and is too young to be swept. */
    ghost function TooYoung(objects: map<Hash, Object>): set<Hash> {
      set h | h in objects && !IsLive(h) && now - objects[h].ctime < graceMs
    }

    /** As many hashes are live. */
    ghost predicate LiveCount(n: nat) {
      exists live: set<Hash> :: |live| == n && forall h :: h in live <==> IsLive(h)
    }

    ghost predicate Orphan(h: Hash, o: Object) {
      && !IsLive(h)
      && now - o.ctime >= graceMs
      && !(o.isStatement && exists url :: url in o.refs && Owns(url))
    }

    /** The store after the sweep. */
    ghost function After(objects: map<Hash, Object>): map<Hash, Object> {
      if Aborts(objects) then objects else map h | h in objects && !Orphan(h, objects[h]) :: objects[h]
    }
  }

  predicate Names(d: Doc, h: Hash) {
    d.blob == Some(h) || (d.statements.Some? && Some(h) in d.statements.value)
  }

  /** A second run on the same documents at the same time removes nothing more. */
  lemma SecondSweepRemovesNothing(s: Setup, objects: map<Hash, Object>)
    ensures s.After(s.After(objects)) == s.After(objects)
  {
  }

  /** The sizes of the swept objects the user holds no copy of. */
  function Reclaimed(objects: map<Hash, Object>, swept: seq<Hash>): nat
    requires forall h :: h in swept ==> h in objects
  {
    if swept == [] then 0
    else
      var last := objects[swept[|swept| - 1]];
      Reclaimed(objects, swept[..|swept| - 1]) + if last.links > 1 then 0 else last.size
  }

  function Hardlinked(objects: map<Hash, Object>, swept: seq<Hash>): nat
    requires forall h :: h in swept ==> h in objects
  {
    if swept == [] then 0
    else Hardlinked(objects, swept[..|swept| - 1]) + if objects[swept[|swept| - 1]].links > 1 then 1 else 0
  }

  function Without(objects: map<Hash, Object>, gone: seq<Hash>): map<Hash, Object> {
    map h | h in objects && h !in gone :: objects[h]
  }

  /** The orphans of a listing, in its order. */
  ghost function Orphans(s: Setup, objects: map<Hash, Object>, listing: seq<Hash>): (r: seq<Hash>)
    ensures forall h :: h in r <==> h in listing && h in objects && s.Orphan(h, objects[h])
    ensures Once(listing) ==> Once(r)
  {
    if listing == [] then []
    else
      var n := |listing| - 1;
      assert listing == listing[..n] + [listing[n]];
      var before := Orphans(s, objects, listing[..n]);
      if listing[n] in objects && s.Orphan(listing[n], objects[listing[n]]) then before + [listing[n]] else before
  }

  /** How many of a listing are unreferenced and too young. */
  ghost function Young(s: Setup, objects: map<Hash, Object>, listing: seq<Hash>): nat {
    if listing == [] then 0
    else
      var h := listing[|listing| - 1];
      Young(s, objects, listing[..|listing| - 1])
      + if h in objects && !s.IsLive(h) && s.now - objects[h].ctime < s.graceMs then 1 else 0
  }

  ghost function Among(hashes: set<Hash>, listing: seq<Hash>): (r: set<Hash>)
    ensures forall h :: h in r <==> h in hashes && h in listing
  {
    if listing == [] then {}
    else
      var n := |listing| - 1;
      assert listing == listing[..n] + [listing[n]];
      Among(hashes, listing[..n]) + if listing[n] in hashes then {listing[n]} else {}
  }

  /** How many objects are unreferenced and too young, counted without an order. */
  lemma {:induction false} YoungAre(s: Setup, objects: map<Hash, Object>, listing: seq<Hash>)
    requires Once(listing)
    ensures Young(s, objects, listing) == |Among(s.TooYoung(objects), listing)|
  {
    if listing != [] {
      YoungAre(s, objects, listing[..|listing| - 1]);
    }
  }

  /** Those of which the user holds a copy. */
  ghost function Copied(objects: map<Hash, Object>): set<Hash> {
    set h | h in objects && objects[h].links > 1
  }

  lemma {:induction false} HardlinkedAre(objects: map<Hash, Object>, swept: seq<Hash>)
    requires Once(swept) && forall h :: h in swept ==> h in objects
    ensures Hardlinked(objects, swept) == |Among(Copied(objects), swept)|
  {
    if swept != [] {
      HardlinkedAre(objects, swept[..|swept| - 1]);
    }
  }

  lemma OneMoreObject(s: Setup, objects: map<Hash, Object>, listing: seq<Hash>, i: nat)
    requires Once(listing) && i < |listing| && listing[i] in objects
    ensures var h, o := listing[i], objects[listing[i]];
      && h !in Orphans(s, objects, listing[..i])
      && Orphans(s, objects, listing[..i + 1])
        == Orphans(s, objects, listing[..i]) + (if s.Orphan(h, o) then [h] else [])
      && Young(s, objects, listing[..i + 1])
         == Young(s, objects, listing[..i]) + (if !s.IsLive(h) && s.now - o.ctime < s.graceMs then 1 else 0)
  {
    assert listing[..i + 1][..i] == listing[..i];
  }

  lemma OneMoreSwept(objects: map<Hash, Object>, swept: seq<Hash>, h: Hash)
    requires h in objects && forall k :: k in swept ==> k in objects
    ensures Without(objects, swept + [h]) == Without(objects, swept) - {h}
    ensures Reclaimed(objects, swept + [h]) == Reclaimed(objects, swept) + if objects[h].links > 1 then 0
      else objects[h].size
    ensures Hardlinked(objects, swept + [h]) == Hardlinked(objects, swept) + if objects[h].links > 1 then 1 else 0
  {
    assert (swept + [h])[..|swept|] == swept;
  }

  predicate Once(list: seq<Hash>) {
    forall i, j :: 0 <= i < j < |list| ==> list[i] != list[j]
  }

  /** The store, with the collector run over it. */
  class Store {
    var objects: map<Hash, Object>

    constructor (objects: map<Hash, Object>)
      ensures this.objects == objects
    {
      this.objects := objects;
    }

    /** The first loop: the root documents, and the recordings they list. */
    method MarkRoots(s: Setup, candidates: seq<Url>)
        returns (roots: seq<Url>, recordings: set<Url>, failed: Option<Url>)
      requires forall url :: url in candidates <==> url in s.seeds || url in s.onDisk
      ensures failed.Some? <==> exists url :: s.LostSeed(url)
      ensures failed.Some? ==> s.LostSeed(failed.value)
      ensures failed.None? ==>
        (forall url :: url in roots <==> s.IsRoot(url)) && forall r :: r in recordings <==> s.Reaches(r)
    {
      roots, recordings, failed := [], {}, None;
      for i := 0 to |candidates|
        invariant forall k :: 0 <= k < i && candidates[k] in s.seeds ==> candidates[k] in s.docs
        invariant forall url :: url in roots <==> url in candidates[..i] && s.IsRoot(url)
        invariant forall r :: r in recordings <==> Listed(s, roots, r)
      {
        var url := candidates[i];
        if url !in s.docs {
          if url in s.seeds {
            assert s.LostSeed(url);
            return roots, recordings, Some(url);
          }
        } else if s.docs[url].recordings.Some? {
          ListedMore(s, roots, url);
          roots := roots + [url];
          recordings := recordings + Strings(s.docs[url].recordings.value);
        }
      }
      forall r
        ensures Listed(s, roots, r) <==> s.Reaches(r)
      {
      }
    }

    /** The second loop: the hashes the recordings name. */
    method MarkLive(s: Setup, recordings: set<Url>) returns (live: set<Hash>, failed: Option<Url>)
      ensures failed.Some? <==> exists r :: r in recordings && r !in s.docs
      ensures failed.Some? ==> failed.value in recordings && failed.value !in s.docs
      ensures failed.None? ==>
        forall h :: h in live <==> exists r :: r in recordings && r in s.docs && Names(s.docs[r], h)
    {
      live, failed := {}, None;
      var todo := recordings;
      while todo != {}
        invariant todo <= recordings && recordings - todo <= s.docs.Keys
        invariant forall h :: h in live <==> exists r :: r in recordings - todo && r in s.docs && Names(s.docs[r], h)
        decreases todo
      {
        var url :| url in todo;
        if url !in s.docs {
          return live, Some(url);
        }
        var doc := s.docs[url];
        var before := live;
        if doc.blob.Some? {
          live := live + {doc.blob.value};
        }
        if doc.statements.Some? {
          live := live + Strings(doc.statements.value);
        }
        assert forall h :: h in live <==> h in before || Names(doc, h);
        assert recordings - (todo - {url}) == (recordings - todo) + {url};
        todo := todo - {url};
      }
      assert recordings - {} == recordings;
    }

    /** The last loop: `listing` is what the store held when the sweep began. */
    method Sweep(s: Setup, listing: seq<Hash>, live: set<Hash>, owners: set<Url>)
      returns (swept: seq<Hash>, young: nat, reclaimed: nat, hardlinked: nat)
      requires Once(listing) && forall h :: h in listing <==> h in objects
      requires (forall h :: h in live <==> s.IsLive(h)) && forall url :: url in owners <==> s.Owns(url)
      modifies this
      ensures swept == Orphans(s, old(objects), listing) && young == Young(s, old(objects), listing)
      ensures objects == Without(old(objects), swept)
      ensures reclaimed == Reclaimed(old(objects), swept) && hardlinked == Hardlinked(old(objects), swept)
      ensures young == |s.TooYoung(old(objects))| && hardlinked == |Among(Copied(old(objects)), swept)|
    {
      swept, young, reclaimed, hardlinked := [], 0, 0, 0;
      for i := 0 to |listing|
        invariant swept == Orphans(s, old(objects), listing[..i]) && young == Young(s, old(objects), listing[..i])
        invariant objects == Without(old(objects), swept)
        invariant reclaimed == Reclaimed(old(objects), swept) && hardlinked == Hardlinked(old(objects), swept)
      {
        var h := listing[i];
        OneMoreObject(s, old(objects), listing, i);
        var found := objects[h];
        if h in live {
        } else if s.now - found.ctime < s.graceMs {
          young := young + 1;
        } else if found.isStatement && exists url :: url in found.refs && url in owners {
        } else {
          objects := objects - {h};
          OneMoreSwept(old(objects), swept, h);
          swept := swept + [h];
          if found.links > 1 {
            hardlinked := hardlinked + 1;
          } else {
            reclaimed := reclaimed + found.size;
          }
        }
      }
      assert listing[..|listing|] == listing;
      YoungAre(s, old(objects), listing);
      assert Among(s.TooYoung(old(objects)), listing) == s.TooYoung(old(objects));
      HardlinkedAre(old(objects), swept);
    }

    /** `collectOrphanedBlobs`. */
    method Collect(s: Setup, candidates: seq<Url>, listing: seq<Hash>) returns (r: Result)
      requires forall url :: url in candidates <==> url in s.seeds || url in s.onDisk
      requires Once(listing) && forall h :: h in listing <==> h in objects
      modifies this
      ensures objects == s.After(old(objects))
      ensures r.aborted.Some? <==> s.Aborts(old(objects))
      ensures r.scanned == |listing|
      ensures r.aborted.Some? ==>
        r == Result(|listing|, 0, [], 0, 0, 0, [], r.aborted) && s.IsReason(r.aborted.value, old(objects))
      ensures r.aborted.None? ==>
        && Once(r.swept) && (forall h :: h in r.swept <==> h in old(objects) && h !in objects)
        && s.LiveCount(r.live)
        && r.skippedYoung == Young(s, old(objects), listing)
        && r.reclaimedBytes == Reclaimed(old(objects), r.swept)
        && r.stillHardlinked == Hardlinked(old(objects), r.swept)
        && (forall url :: url in r.roots <==> s.IsRoot(url))
      ensures r.aborted.None? ==>
        && r.skippedYoung == |s.TooYoung(old(objects))|
        && r.stillHardlinked == |Among(Copied(old(objects)), r.swept)|
    {
      var roots, recordings, failed := MarkRoots(s, candidates);
      if failed.Some? {
        return Result(|listing|, 0, [], 0, 0, 0, [], Some(RootUnresolved(failed.value)));
      }
      if |roots| == 0 && |listing| > 0 {
        assert listing[0] in objects;
        return Result(|listing|, 0, [], 0, 0, 0, [], Some(NoRoots));
      }
      var live, missing := MarkLive(s, recordings);
      if missing.Some? {
        assert s.LostRecording(missing.value);
        return Result(|listing|, 0, [], 0, 0, 0, [], Some(RecordingUnresolved(missing.value)));
      }
      assert roots == [] ==> objects == map[];
      assert roots != [] ==> s.IsRoot(roots[0]);
      assert forall h :: h in live <==> s.IsLive(h);
      var owners := recordings + set url | url in roots;
      var swept, young, reclaimed, hardlinked := Sweep(s, listing, live, owners);
      r := Result(|listing|, |live|, swept, young, reclaimed, hardlinked, roots, None);
    }
  }

  /** A root in the list names the recording. */
  predicate Listed(s: Setup, roots: seq<Url>, r: Url) {
    exists root :: root in roots && root in s.docs && s.docs[root].recordings.Some?
      && Some(r) in s.docs[root].recordings.value
  }

  lemma ListedMore(s: Setup, roots: seq<Url>, url: Url)
    requires url in s.docs && s.docs[url].recordings.Some?
    ensures forall r :: Listed(s, roots + [url], r) <==> Listed(s, roots, r) || Some(r) in s.docs[url].recordings.value
  {
    forall r
      ensures Listed(s, roots + [url], r) <==> Listed(s, roots, r) || Some(r) in s.docs[url].recordings.value
    {
      assert url in roots + [url];
      assert forall root :: root in roots ==> root in roots + [url];
    }
  }

  /** The entries that are strings. */
  function Strings(list: seq<Option<string>>): (r: set<string>)
    ensures forall x :: x in r <==> Some(x) in list
  {
    if list == [] then {}
    else
      assert list == [list[0]] + list[1..];
      Strings(list[1..]) + if list[0].Some? then {list[0].value} else {}
  }
}

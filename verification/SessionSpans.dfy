/**
 * What `track` makes of a sequence of connection lists (`sessionRecorder.ts`), on values: one stay
 * for each continuous presence of a proven connection.
 */
module SessionSpans {
  import opened Wrappers

  /** A connection as the registry lists it; `deviceKey` is set once the device proved its key. */
  datatype Connection = Connection(id: string, deviceKey: Option<string>, name: Option<string>, connectedAt: int)

  /** One span, with the connection it is for and the key that had when it joined. */
  datatype Stay = Stay(id: string, key: string, joinedAt: int, leftAt: Option<int>)

  /** A connection list, and the host's clock when it came. */
  datatype Event = Event(list: seq<Connection>, at: int)

  predicate Proven(list: seq<Connection>, id: string) {
    exists i :: 0 <= i < |list| && list[i].id == id && list[i].deviceKey.Some?
  }

  predicate IsOpen(stays: seq<Stay>, id: string) {
    exists i :: 0 <= i < |stays| && stays[i].id == id && stays[i].leftAt.None?
  }

  function Max(a: int, b: int): int {
    if a < b then b else a
  }

  /** A span begins when its connection did, or with the session if that is later. */
  function Joined(c: Connection, openedAt: int): (s: Stay)
    requires c.deviceKey.Some?
    ensures s.joinedAt >= c.connectedAt && s.joinedAt >= openedAt
    ensures s.joinedAt == c.connectedAt || s.joinedAt == openedAt
    ensures s.id == c.id && Some(s.key) == c.deviceKey && s.leftAt.None?
  {
    Stay(c.id, c.deviceKey.value, Max(c.connectedAt, openedAt), None)
  }

  /** A proven connection without an open span gets one. */
  function JoinIfNew(stays: seq<Stay>, openedAt: int, c: Connection): seq<Stay> {
    if c.deviceKey.None? || IsOpen(stays, c.id) then stays else stays + [Joined(c, openedAt)]
  }

  function Join(stays: seq<Stay>, openedAt: int, list: seq<Connection>): seq<Stay> {
    if list == [] then stays else JoinIfNew(Join(stays, openedAt, list[..|list| - 1]), openedAt, list[|list| - 1])
  }

  function LeaveOne(s: Stay, list: seq<Connection>, at: int): Stay {
    if s.leftAt.None? && !Proven(list, s.id) then s.(leftAt := Some(at)) else s
  }

  /** Every open span whose connection is not listed any more ends now. */
  function Leave(stays: seq<Stay>, list: seq<Connection>, at: int): (r: seq<Stay>)
    ensures |r| == |stays|
  {
    seq(|stays|, i requires 0 <= i < |stays| => LeaveOne(stays[i], list, at))
  }

  function TrackStep(stays: seq<Stay>, openedAt: int, e: Event): seq<Stay> {
    Leave(Join(stays, openedAt, e.list), e.list, e.at)
  }

  /** All spans of a session, in the order they were begun. */
  function History(openedAt: int, events: seq<Event>): seq<Stay> {
    if events == [] then [] else TrackStep(History(openedAt, events[..|events| - 1]), openedAt, events[|events| - 1])
  }

  // ---- The presences of one connection ----

  function OfConnection(stays: seq<Stay>, id: string): seq<Stay> {
    if stays == [] then []
    else
      var before, s := OfConnection(stays[..|stays| - 1], id), stays[|stays| - 1];
      if s.id == id then before + [s] else before
  }

  /** The first proven listing of a connection. */
  function Listing(list: seq<Connection>, id: string): (c: Connection)
    requires Proven(list, id)
    ensures c in list && c.id == id && c.deviceKey.Some?
  {
    if list[0].id == id && list[0].deviceKey.Some? then list[0]
    else
      assert Proven(list[1..], id) by {
        var i :| 0 <= i < |list| && list[i].id == id && list[i].deviceKey.Some?;
        assert list[1..][i - 1] == list[i];
      }
      Listing(list[1..], id)
  }

  /** What one list does to a connection's presences. */
  function NextRuns(runs: seq<Stay>, wasHere: bool, openedAt: int, e: Event, id: string): seq<Stay>
    requires wasHere ==> runs != []
  {
    if Proven(e.list, id) && !wasHere then runs + [Joined(Listing(e.list, id), openedAt)]
    else if !Proven(e.list, id) && wasHere then runs[|runs| - 1 := runs[|runs| - 1].(leftAt := Some(e.at))]
    else runs
  }

  /** Whether the last list has the connection proven. */
  predicate IsHere(events: seq<Event>, id: string) {
    events != [] && Proven(events[|events| - 1].list, id)
  }

  /**
   * One stay for each maximal run of lists that a connection is proven in: it begins with the first
   * list of the run and ends with the first list after it.
   */
  function Runs(openedAt: int, events: seq<Event>, id: string): (r: seq<Stay>)
    ensures IsHere(events, id) ==> r != [] && r[|r| - 1].leftAt.None?
    ensures !IsHere(events, id) ==> forall i :: 0 <= i < |r| ==> r[i].leftAt.Some?
    ensures OthersEnded(r) && forall i :: 0 <= i < |r| ==> r[i].id == id
  {
    if events == [] then []
    else
      var n := |events| - 1;
      NextRuns(Runs(openedAt, events[..n], id), IsHere(events[..n], id), openedAt, events[n], id)
  }

  lemma {:induction false} OfConnectionAppend(stays: seq<Stay>, more: seq<Stay>, id: string)
    ensures OfConnection(stays + more, id) == OfConnection(stays, id) + OfConnection(more, id)
  {
    if more == [] {
      assert stays + more == stays;
    } else {
      OfConnectionAppend(stays, more[..|more| - 1], id);
      assert (stays + more)[..|stays + more| - 1] == stays + more[..|more| - 1];
    }
  }

  predicate AnyOpen(stays: seq<Stay>) {
    exists i :: 0 <= i < |stays| && stays[i].leftAt.None?
  }

  /** Nothing but the last may be open. */
  predicate OthersEnded(stays: seq<Stay>) {
    forall i :: 0 <= i < |stays| - 1 ==> stays[i].leftAt.Some?
  }

  lemma {:induction false} OpenInConnection(stays: seq<Stay>, id: string)
    ensures IsOpen(stays, id) <==> AnyOpen(OfConnection(stays, id))
    ensures forall i :: 0 <= i < |OfConnection(stays, id)| ==> OfConnection(stays, id)[i].id == id
  {
    if stays != [] {
      var n := |stays| - 1;
      OpenInConnection(stays[..n], id);
      assert stays == stays[..n] + [stays[n]];
      OpenAppend(stays[..n], stays[n], id);
      var before := OfConnection(stays[..n], id);
      if stays[n].id == id {
        AnyOpenAppend(before, stays[n]);
      }
    }
  }

  lemma AnyOpenAppend(stays: seq<Stay>, s: Stay)
    ensures AnyOpen(stays + [s]) <==> AnyOpen(stays) || s.leftAt.None?
  {
    var all := stays + [s];
    if i :| 0 <= i < |stays| && stays[i].leftAt.None? {
      assert all[i] == stays[i];
    }
    assert all[|stays|] == s;
  }

  /** Joining adds at most one stay to a connection: the first proven listing, if none is open. */
  lemma {:induction false} JoinOne(stays: seq<Stay>, openedAt: int, list: seq<Connection>, id: string)
    ensures OfConnection(Join(stays, openedAt, list), id)
      == OfConnection(stays, id) + if Proven(list, id)
        && !IsOpen(stays, id) then [Joined(Listing(list, id), openedAt)] else []
    ensures IsOpen(Join(stays, openedAt, list), id) <==> IsOpen(stays, id) || Proven(list, id)
    decreases |list|
  {
    if list != [] {
      var n := |list| - 1;
      var front, c := list[..n], list[n];
      JoinOne(stays, openedAt, front, id);
      ListingOfFront(list, id);
      var before, after := Join(stays, openedAt, front), Join(stays, openedAt, list);
      if after != before {
        OfConnectionAppend(before, [Joined(c, openedAt)], id);
        assert OfConnection([Joined(c, openedAt)], id) == if c.id == id then [Joined(c, openedAt)] else [] by {
          assert OfConnection([], id) == [];
        }
        OpenAppend(before, Joined(c, openedAt), id);
      }
    }
  }

  lemma OpenAppend(stays: seq<Stay>, s: Stay, id: string)
    ensures IsOpen(stays + [s], id) <==> IsOpen(stays, id) || (s.id == id && s.leftAt.None?)
  {
    var all := stays + [s];
    if i :| 0 <= i < |stays| && stays[i].id == id && stays[i].leftAt.None? {
      assert all[i] == stays[i];
    }
    assert all[|stays|] == s;
  }

  lemma ProvenFront(list: seq<Connection>, id: string)
    requires list != []
    ensures var front, c := list[..|list| - 1], list[|list| - 1];
      Proven(list, id) <==> Proven(front, id) || (c.id == id && c.deviceKey.Some?)
  {
    var n := |list| - 1;
    if i :| 0 <= i < n && list[..n][i].id == id && list[..n][i].deviceKey.Some? {
      assert list[i] == list[..n][i];
    }
    if i :| 0 <= i < |list| && list[i].id == id && list[i].deviceKey.Some? {
      assert i < n ==> list[..n][i] == list[i];
    }
  }

  lemma {:induction false} ListingOfFront(list: seq<Connection>, id: string)
    requires list != []
    ensures var front, c := list[..|list| - 1], list[|list| - 1];
      && (Proven(list, id) <==> Proven(front, id) || (c.id == id && c.deviceKey.Some?))
      && (Proven(front, id) ==> Listing(list, id) == Listing(front, id))
      && (Proven(list, id) && !Proven(front, id) ==> Listing(list, id) == c)
    decreases |list|
  {
    var n := |list| - 1;
    ProvenFront(list, id);
    if n > 0 {
      ListingOfFront(list[1..], id);
      assert list[1..][..n - 1] == list[..n][1..];
    }
  }

  lemma {:induction false} LeaveEach(stays: seq<Stay>, list: seq<Connection>, at: int, id: string)
    ensures OfConnection(Leave(stays, list, at), id) == Leave(OfConnection(stays, id), list, at)
  {
    if stays != [] {
      var n := |stays| - 1;
      LeaveEach(stays[..n], list, at, id);
      assert Leave(stays, list, at)[..n] == Leave(stays[..n], list, at);
    }
  }

  /** One list, seen from one connection. */
  lemma StepOfConnection(stays: seq<Stay>, openedAt: int, e: Event, id: string)
    ensures OfConnection(TrackStep(stays, openedAt, e), id)
      == Leave(OfConnection(stays, id)
        + if Proven(e.list, id)
          && !AnyOpen(OfConnection(stays, id)) then [Joined(Listing(e.list, id), openedAt)] else [], e.list, e.at)
  {
    OpenInConnection(stays, id);
    JoinOne(stays, openedAt, e.list, id);
    LeaveEach(Join(stays, openedAt, e.list), e.list, e.at, id);
  }

  /**
   * Each continuous presence of a connection yields exactly one span, from the list it began with to
   * the list that no longer had it.
   */
  lemma {:induction false} SpansArePresences(openedAt: int, events: seq<Event>, id: string)
    ensures OfConnection(History(openedAt, events), id) == Runs(openedAt, events, id)
    decreases |events|
  {
    if events != [] {
      var n := |events| - 1;
      var before, e := History(openedAt, events[..n]), events[n];
      SpansArePresences(openedAt, events[..n], id);
      StepOfConnection(before, openedAt, e, id);
      RunsNext(openedAt, events[..n], e, id);
      assert events == events[..n] + [e];
    }
  }

  /** One more list, seen from the presences. */
  lemma RunsNext(openedAt: int, events: seq<Event>, e: Event, id: string)
    ensures var runs := Runs(openedAt, events, id);
      Leave(runs + if Proven(e.list, id) && !AnyOpen(runs) then [Joined(Listing(e.list, id), openedAt)] else [],
        e.list, e.at)
      == Runs(openedAt, events + [e], id)
  {
    var runs, wasHere := Runs(openedAt, events, id), IsHere(events, id);
    OpenAtEnd(runs, wasHere);
    RunsStep(runs, wasHere, openedAt, e, id);
    assert (events + [e])[..|events|] == events;
  }

  lemma OpenAtEnd(runs: seq<Stay>, wasHere: bool)
    requires wasHere ==> runs != [] && runs[|runs| - 1].leftAt.None?
    requires !wasHere ==> forall i :: 0 <= i < |runs| ==> runs[i].leftAt.Some?
    ensures AnyOpen(runs) <==> wasHere
  {
    if wasHere {
      assert runs[|runs| - 1].leftAt.None?;
    }
  }

  lemma RunsStep(runs: seq<Stay>, wasHere: bool, openedAt: int, e: Event, id: string)
    requires OthersEnded(runs) && forall i :: 0 <= i < |runs| ==> runs[i].id == id
    requires wasHere ==> runs != [] && runs[|runs| - 1].leftAt.None?
    requires !wasHere ==> forall i :: 0 <= i < |runs| ==> runs[i].leftAt.Some?
    ensures Leave(runs + (if Proven(e.list, id) && !wasHere then [Joined(Listing(e.list, id), openedAt)] else []),
      e.list, e.at)
      == NextRuns(runs, wasHere, openedAt, e, id)
  {
    assert runs + [] == runs;
    if Proven(e.list, id) && !wasHere {
      LeaveNone(runs + [Joined(Listing(e.list, id), openedAt)], e);
    } else if Proven(e.list, id) || !wasHere {
      LeaveNone(runs, e);
    }
  }

  lemma LeaveNone(stays: seq<Stay>, e: Event)
    requires forall i :: 0 <= i < |stays| ==> stays[i].leftAt.Some? || Proven(e.list, stays[i].id)
    ensures Leave(stays, e.list, e.at) == stays
  {
  }

  /** The spans without an end are exactly those of the proven connections of the last list, one each. */
  lemma OpenSpansAreTheLastList(openedAt: int, events: seq<Event>, id: string)
    requires events != []
    ensures var h := History(openedAt, events);
      (IsOpen(h, id) <==> Proven(events[|events| - 1].list, id)) && OthersEnded(OfConnection(h, id))
  {
    SpansArePresences(openedAt, events, id);
    OpenInConnection(History(openedAt, events), id);
    OpenAtEnd(Runs(openedAt, events, id), Proven(events[|events| - 1].list, id));
  }

  // ---- Times ----

  /** A nondecreasing clock that starts with the session and never runs behind a connection. */
  predicate Clocked(openedAt: int, events: seq<Event>) {
    && (forall i, j :: 0 <= i < j < |events| ==> events[i].at <= events[j].at)
    && (forall i :: 0 <= i < |events| ==> openedAt <= events[i].at)
    && (forall i, k :: 0 <= i < |events| && 0 <= k < |events[i].list| ==> events[i].list[k].connectedAt <= events[i].at)
  }

  predicate Within(s: Stay, openedAt: int, at: int) {
    openedAt <= s.joinedAt <= at && (s.leftAt.Some? ==> s.joinedAt <= s.leftAt.value <= at)
  }

  lemma {:induction false} JoinWithin(stays: seq<Stay>, openedAt: int, list: seq<Connection>, at: int)
    requires openedAt <= at && forall i :: 0 <= i < |stays| ==> Within(stays[i], openedAt, at)
    requires forall i :: 0 <= i < |list| ==> list[i].connectedAt <= at
    ensures forall i :: 0 <= i < |Join(stays, openedAt, list)| ==> Within(Join(stays, openedAt, list)[i], openedAt, at)
    decreases |list|
  {
    if list != [] {
      JoinWithin(stays, openedAt, list[..|list| - 1], at);
    }
  }

  /** Every span begins after the opening, and ends after it began and before now. */
  lemma {:induction false} SpansAreWithin(openedAt: int, events: seq<Event>, at: int)
    requires Clocked(openedAt, events) && openedAt <= at && forall i :: 0 <= i < |events| ==> events[i].at <= at
    ensures forall i :: 0 <= i < |History(openedAt, events)| ==> Within(History(openedAt, events)[i], openedAt, at)
    decreases |events|
  {
    if events != [] {
      var n := |events| - 1;
      SpansAreWithin(openedAt, events[..n], events[n].at);
      JoinWithin(History(openedAt, events[..n]), openedAt, events[n].list, events[n].at);
    }
  }

  /** What a record lists under a key: its spans, a span still open ending with the session. */
  function SpansOfKey(stays: seq<Stay>, key: string, closedAt: int): seq<(int, int)> {
    if stays == [] then []
    else
      var before, s := SpansOfKey(stays[..|stays| - 1], key, closedAt), stays[|stays| - 1];
      if s.key == key then before + [(s.joinedAt, if s.leftAt.Some? then s.leftAt.value else closedAt)] else before
  }

  /** The stays begun under a key, in order. */
  function OfDevice(stays: seq<Stay>, key: string): (r: seq<Stay>)
    ensures forall s :: s in r <==> s in stays && s.key == key
  {
    if stays == [] then []
    else
      var n := |stays| - 1;
      assert stays == stays[..n] + [stays[n]];
      OfDevice(stays[..n], key) + if stays[n].key == key then [stays[n]] else []
  }

  lemma {:induction false} SpansAreStays(stays: seq<Stay>, key: string, closedAt: int)
    requires forall i :: 0 <= i < |stays| ==> stays[i].leftAt.Some?
    ensures var spans, mine := SpansOfKey(stays, key, closedAt), OfDevice(stays, key);
      && |spans| == |mine|
      && forall i :: 0 <= i < |spans| ==> spans[i].0 == mine[i].joinedAt && Some(spans[i].1) == mine[i].leftAt
  {
    if stays != [] {
      SpansAreStays(stays[..|stays| - 1], key, closedAt);
    }
  }

  /** After the close, what is listed under a key is when each of its stays began and ended, in order. */
  lemma ListedSpansAreStays(openedAt: int, events: seq<Event>, key: string, closedAt: int)
    requires events != [] && events[|events| - 1] == Event([], closedAt)
    ensures var spans, mine := SpansOfKey(History(openedAt, events), key, closedAt),
      OfDevice(History(openedAt, events), key);
      && |spans| == |mine|
      && forall i :: 0 <= i < |spans| ==> spans[i].0 == mine[i].joinedAt && Some(spans[i].1) == mine[i].leftAt
  {
    SpansAreStays(History(openedAt, events), key, closedAt);
  }

  lemma {:induction false} ListedWithin(stays: seq<Stay>, key: string, openedAt: int, closedAt: int)
    requires forall i :: 0 <= i < |stays| ==> Within(stays[i], openedAt, closedAt)
    ensures forall i :: 0 <= i < |SpansOfKey(stays, key, closedAt)| ==>
      openedAt <= SpansOfKey(stays, key, closedAt)[i].0 <= SpansOfKey(stays, key, closedAt)[i].1 <= closedAt
  {
    if stays != [] {
      ListedWithin(stays[..|stays| - 1], key, openedAt, closedAt);
    }
  }

  /** In every record each span begins after the opening, ends after it began, and before the close. */
  lemma RecordedSpansAreWithin(openedAt: int, events: seq<Event>, key: string, closedAt: int)
    requires events != [] && events[|events| - 1].at == closedAt && Clocked(openedAt, events)
    ensures forall i :: 0 <= i < |SpansOfKey(History(openedAt, events), key, closedAt)| ==>
      var span := SpansOfKey(History(openedAt, events), key, closedAt)[i]; openedAt <= span.0 <= span.1 <= closedAt
  {
    SpansAreWithin(openedAt, events, closedAt);
    ListedWithin(History(openedAt, events), key, openedAt, closedAt);
  }

  // ---- Device names ----

  /** A connection that proved its key names its device, or leaves the name it has. */
  function NameOne(names: map<string, Option<string>>, c: Connection): map<string, Option<string>> {
    if c.deviceKey.None? then names
    else
      var k := c.deviceKey.value;
      names[k := if c.name.Some? then c.name else if k in names then names[k] else None]
  }

  function NameAll(names: map<string, Option<string>>, list: seq<Connection>): map<string, Option<string>> {
    if list == [] then names else NameOne(NameAll(names, list[..|list| - 1]), list[|list| - 1])
  }

  /** The devices that ever proved their key, each with the last name it gave. */
  function Named(events: seq<Event>): map<string, Option<string>> {
    if events == [] then map[] else NameAll(Named(events[..|events| - 1]), events[|events| - 1].list)
  }

  lemma HistoryNext(openedAt: int, events: seq<Event>, e: Event)
    ensures History(openedAt, events + [e]) == TrackStep(History(openedAt, events), openedAt, e)
    ensures Named(events + [e]) == NameAll(Named(events), e.list)
  {
    assert (events + [e])[..|events|] == events;
  }

  /** Some list has a connection that proved this key. */
  ghost predicate EverProved(events: seq<Event>, key: string) {
    exists i, j :: 0 <= i < |events| && 0 <= j < |events[i].list| && events[i].list[j].deviceKey == Some(key)
  }

  lemma {:induction false} NameAllKeys(names: map<string, Option<string>>, list: seq<Connection>, key: string)
    ensures key in NameAll(names, list) <==>
      key in names || exists j :: 0 <= j < |list| && list[j].deviceKey == Some(key)
    decreases |list|
  {
    if list != [] {
      var n := |list| - 1;
      NameAllKeys(names, list[..n], key);
      assert forall j :: 0 <= j < n ==> list[..n][j] == list[j];
    }
  }

  lemma {:induction false} NamedAreProved(events: seq<Event>, key: string)
    ensures key in Named(events) <==> EverProved(events, key)
    decreases |events|
  {
    if events != [] {
      var n := |events| - 1;
      NamedAreProved(events[..n], key);
      NameAllKeys(Named(events[..n]), events[n].list, key);
      assert forall i :: 0 <= i < n ==> events[..n][i] == events[i];
    }
  }

  /** A listing in which the device with this key gives a name. */
  predicate GivesName(list: seq<Connection>, j: int, key: string) {
    0 <= j < |list| && list[j].deviceKey == Some(key) && list[j].name.Some?
  }

  /** The last listing in which it does. */
  ghost predicate GivesLastName(list: seq<Connection>, j: int, key: string) {
    GivesName(list, j, key) && forall k :: GivesName(list, k, key) ==> k <= j
  }

  lemma {:induction false} LastInList(names: map<string, Option<string>>, list: seq<Connection>, key: string)
    requires key in NameAll(names, list)
    ensures (exists j :: GivesName(list, j, key)) ==>
      exists j :: GivesLastName(list, j, key) && NameAll(names, list)[key] == list[j].name
    ensures (forall j :: !GivesName(list, j, key)) ==>
      NameAll(names, list)[key] == if key in names then names[key] else None
    decreases |list|
  {
    if list != [] {
      var n := |list| - 1;
      var front := list[..n];
      assert forall j :: j < n ==> (GivesName(front, j, key) <==> GivesName(list, j, key));
      if key in NameAll(names, front) {
        LastInList(names, front, key);
      } else {
        NameAllKeys(names, front, key);
      }
      if GivesName(list, n, key) {
        assert GivesLastName(list, n, key) && NameAll(names, list)[key] == list[n].name;
      } else if j :| GivesLastName(front, j, key) && NameAll(names, list)[key] == front[j].name {
        assert GivesLastName(list, j, key) && list[j].name == front[j].name;
      }
    }
  }

  /** The device gives a name, and no later listing gives it one. */
  ghost predicate IsLastName(events: seq<Event>, i: int, j: int, key: string) {
    && 0 <= i < |events| && GivesName(events[i].list, j, key)
    && forall k, m :: 0 <= k < |events| && GivesName(events[k].list, m, key) ==> k < i || (k == i && m <= j)
  }

  /** A device's name is the last one it gave in the session, if it gave one. */
  lemma {:induction false} LastNameIsKept(events: seq<Event>, key: string)
    requires key in Named(events)
    ensures Named(events)[key].None? <==> forall i, j :: 0 <= i < |events| ==> !GivesName(events[i].list, j, key)
    ensures Named(events)[key].Some? ==>
      exists i, j :: IsLastName(events, i, j, key) && Named(events)[key] == events[i].list[j].name
    decreases |events|
  {
    var n := |events| - 1;
    var front, list := events[..n], events[n].list;
    LastInList(Named(front), list, key);
    if j :| GivesLastName(list, j, key) && Named(events)[key] == list[j].name {
      assert IsLastName(events, n, j, key);
    } else if key in Named(front) {
      LastNameIsKept(front, key);
      if i, j :| IsLastName(front, i, j, key) && Named(front)[key] == front[i].list[j].name {
        assert events[i] == front[i] && IsLastName(events, i, j, key);
      }
    } else {
      NamedAreProved(front, key);
      forall i, j | 0 <= i < n
        ensures !GivesName(events[i].list, j, key)
      {
        assert front[i] == events[i];
      }
    }
  }

  lemma {:induction false} JoinedAreNamed(stays: seq<Stay>, openedAt: int, list: seq<Connection>, names: map<string,
      Option<string>>)
    requires forall i :: 0 <= i < |stays| ==> stays[i].key in names
    ensures forall i :: 0 <= i < |Join(stays, openedAt, list)| ==>
      Join(stays, openedAt, list)[i].key in NameAll(names, list)
    decreases |list|
  {
    if list != [] {
      JoinedAreNamed(stays, openedAt, list[..|list| - 1], names);
    }
  }

  /** Every span is under a device that is named. */
  lemma {:induction false} SpansAreNamed(openedAt: int, events: seq<Event>)
    ensures forall i :: 0 <= i < |History(openedAt, events)| ==> History(openedAt, events)[i].key in Named(events)
    decreases |events|
  {
    if events != [] {
      var n := |events| - 1;
      SpansAreNamed(openedAt, events[..n]);
      JoinedAreNamed(History(openedAt, events[..n]), openedAt, events[n].list, Named(events[..n]));
    }
  }
}

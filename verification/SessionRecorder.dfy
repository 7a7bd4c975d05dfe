/**
 * The session recorder (`sessionRecorder.ts`). A span object is shared: its device lists it and,
 * while the connection lasts, `live` points at the same object, so ending it through `live` ends it
 * in the device's list.
 */
module SessionRecorder {
  import opened Wrappers
  import opened SessionSpans

  class LiveSpan {
    const joinedAt: int
    var leftAt: Option<int>
    ghost const id: string
    ghost const key: string
    ghost const session: string

    constructor (joinedAt: int, ghost id: string, ghost key: string, ghost session: string)
      ensures this.joinedAt == joinedAt && leftAt == None && this.id == id && this.key == key && this.session == session
    {
      this.joinedAt, leftAt, this.id, this.key, this.session := joinedAt, None, id, key, session;
    }

    ghost function Value(): Stay
      reads this
    {
      Stay(id, key, joinedAt, leftAt)
    }
  }

  ghost function Values(log: seq<LiveSpan>): (r: seq<Stay>)
    reads log
    ensures |r| == |log| && forall i :: 0 <= i < |log| ==> r[i] == log[i].Value()
  {
    seq(|log|, i requires 0 <= i < |log| reads log => log[i].Value())
  }

  lemma ValuesAppend(log: seq<LiveSpan>, s: LiveSpan)
    ensures Values(log + [s]) == Values(log) + [s.Value()]
  {
  }

  lemma OfKeyAppend(log: seq<LiveSpan>, s: LiveSpan, key: string)
    ensures OfKey(log + [s], key) == OfKey(log, key) + if s.key == key then [s] else []
  {
    assert (log + [s])[..|log|] == log;
  }

  /** A device's last name and its spans, oldest first. */
  datatype TrackedDevice = TrackedDevice(name: Option<string>, spans: seq<LiveSpan>)

  function NamesOf(devices: map<string, TrackedDevice>): map<string, Option<string>> {
    map k | k in devices :: devices[k].name
  }

  lemma NamesPut(devices: map<string, TrackedDevice>, key: string, d: TrackedDevice)
    ensures NamesOf(devices[key := d]) == NamesOf(devices)[key := d.name]
    ensures key in devices && devices[key].name == d.name ==> NamesOf(devices[key := d]) == NamesOf(devices)
  {
  }

  /** The spans begun under a key. */
  ghost function OfKey(log: seq<LiveSpan>, key: string): (r: seq<LiveSpan>)
    ensures forall i :: 0 <= i < |r| ==> r[i] in log && r[i].key == key
    ensures forall i :: 0 <= i < |log| && log[i].key == key ==> log[i] in r
  {
    if log == [] then []
    else
      assert log == log[..|log| - 1] + [log[|log| - 1]];
      OfKey(log[..|log| - 1], key) + if log[|log| - 1].key == key then [log[|log| - 1]] else []
  }

  datatype RecordDevice = RecordDevice(name: Option<string>, spans: seq<(int, int)>)

  lemma {:induction false} NoneOfKey(log: seq<LiveSpan>, key: string)
    ensures (forall i :: 0 <= i < |log| ==> log[i].key != key) ==> OfKey(log, key) == []
  {
    if log != [] {
      NoneOfKey(log[..|log| - 1], key);
    }
  }

  ghost predicate Distinct(log: seq<LiveSpan>, session: string) {
    (forall i, j :: 0 <= i < j < |log| ==> log[i] != log[j]) && forall i :: 0 <= i < |log| ==> log[i].session == session
  }

  /** Each device lists the spans begun under its key. */
  ghost predicate ByDevice(devices: map<string, TrackedDevice>, log: seq<LiveSpan>) {
    && (forall k :: k in devices ==> devices[k].spans == OfKey(log, k))
    && (forall i :: 0 <= i < |log| ==> log[i].key in devices)
  }

  lemma NamedByDevice(devices: map<string, TrackedDevice>, log: seq<LiveSpan>, key: string, d: TrackedDevice)
    requires ByDevice(devices, log) && d.spans == OfKey(log, key)
    ensures ByDevice(devices[key := d], log)
  {
  }

  /** The spans without an end are exactly the live ones. */
  ghost predicate ByConnection(live: map<string, LiveSpan>, log: seq<LiveSpan>)
    reads log
  {
    && (forall id :: id in live ==> live[id] in log && live[id].id == id)
    && (forall i :: 0 <= i < |log| ==> (log[i].leftAt.None? <==> log[i].id in live && live[log[i].id] == log[i]))
  }

  lemma ByDeviceBegin(devices: map<string, TrackedDevice>, log: seq<LiveSpan>, span: LiveSpan, name: Option<string>)
    requires ByDevice(devices, log) && span.key in devices
    ensures ByDevice(devices[span.key := TrackedDevice(name, devices[span.key].spans + [span])], log + [span])
  {
    forall k
      ensures OfKey(log + [span], k) == OfKey(log, k) + if span.key == k then [span] else []
    {
      OfKeyAppend(log, span, k);
    }
  }

  lemma ByConnectionBegin(live: map<string, LiveSpan>, log: seq<LiveSpan>, span: LiveSpan)
    requires ByConnection(live, log) && span.id !in live && span !in log && span.leftAt.None?
    ensures ByConnection(live[span.id := span], log + [span])
  {
    var more, all := live[span.id := span], log + [span];
    forall id | id in more
      ensures more[id] in all && more[id].id == id
    {
      if id != span.id {
        assert live[id] in log;
      }
    }
    assert all[|log|] == span;
  }

  lemma SharedBegin(devices: map<string, TrackedDevice>, live: map<string, LiveSpan>, log: seq<LiveSpan>,
      span: LiveSpan, name: Option<string>)
    requires Distinct(log, span.session) && ByDevice(devices, log) && ByConnection(live, log)
    requires span.key in devices && span.id !in live && span !in log && span.leftAt.None?
    ensures Distinct(log + [span], span.session) && ByConnection(live[span.id := span], log + [span])
    ensures ByDevice(devices[span.key := TrackedDevice(name, devices[span.key].spans + [span])], log + [span])
  {
    ByDeviceBegin(devices, log, span, name);
    ByConnectionBegin(live, log, span);
  }

  ghost function EndedOne(stays: seq<Stay>, id: string, at: int): seq<Stay> {
    seq(|stays|, i requires 0 <= i < |stays| =>
      if stays[i].leftAt.None? && stays[i].id == id then stays[i].(leftAt := Some(at)) else stays[i])
  }

  ghost function EndedAbsent(stays: seq<Stay>, present: set<string>, at: int): seq<Stay> {
    seq(|stays|, i requires 0 <= i < |stays| =>
      if stays[i].leftAt.None? && stays[i].id !in present then stays[i].(leftAt := Some(at)) else stays[i])
  }

  method Stop(span: LiveSpan, at: int, ghost log: seq<LiveSpan>, ghost before: seq<Stay>)
    requires before == Values(log)
    modifies span`leftAt
    ensures span.leftAt == Some(at)
    ensures forall i :: 0 <= i < |log| ==> before[i] == log[i].Value().(leftAt := before[i].leftAt)
    ensures forall i :: 0 <= i < |log| && log[i] != span ==> before[i].leftAt == log[i].leftAt
  {
    span.leftAt := Some(at);
  }

  /** The spans of the log as they were, but for the one that ended. */
  lemma EndedInLog(log: seq<LiveSpan>, before: seq<Stay>, live: map<string, LiveSpan>, id: string, span: LiveSpan,
      at: int)
    requires |before| == |log| && id in live && live[id] == span && span.leftAt == Some(at)
    requires forall k :: k in live ==> live[k] in log && live[k].id == k
    requires forall i :: 0 <= i < |log| ==> before[i] == log[i].Value().(leftAt := before[i].leftAt)
    requires forall i :: 0 <= i < |log| && log[i] != span ==> before[i].leftAt == log[i].leftAt
    requires forall i :: 0 <= i < |log| ==> (before[i].leftAt.None? <==> log[i].id in live && live[log[i].id] == log[i])
    ensures ByConnection(live - {id}, log) && Values(log) == EndedOne(before, id, at)
  {
  }

  lemma EndedNext(stays: seq<Stay>, ids: set<string>, present: set<string>, id: string, at: int)
    requires id in ids
    ensures id !in present ==>
      EndedOne(EndedAbsent(stays, present + ids, at), id, at) == EndedAbsent(stays, present + (ids - {id}), at)
    ensures id in present ==> EndedAbsent(stays, present + ids, at) == EndedAbsent(stays, present + (ids - {id}), at)
  {
    assert id in present ==> present + ids == present + (ids - {id});
  }

  lemma EndedNobody(stays: seq<Stay>, ids: set<string>, present: set<string>, at: int)
    requires forall i :: 0 <= i < |stays| && stays[i].leftAt.None? ==> stays[i].id in ids
    ensures EndedAbsent(stays, present + ids, at) == stays
    ensures present + {} == present
  {
  }

  lemma ProvenNext(list: seq<Connection>, i: nat)
    requires i < |list|
    ensures forall id :: Proven(list[..i + 1], id) <==>
      Proven(list[..i], id) || (list[i].id == id && list[i].deviceKey.Some?)
  {
    forall id
      ensures Proven(list[..i + 1], id) <==> Proven(list[..i], id) || (list[i].id == id && list[i].deviceKey.Some?)
    {
      assert list[..i + 1][..i] == list[..i];
      ListingOfFront(list[..i + 1], id);
    }
  }

  lemma JoinNext(stays: seq<Stay>, openedAt: int, list: seq<Connection>, i: nat)
    requires i < |list|
    ensures Join(stays, openedAt, list[..i + 1]) == JoinIfNew(Join(stays, openedAt, list[..i]), openedAt, list[i])
  {
    assert list[..i + 1][..i] == list[..i];
  }

  lemma NameNext(names: map<string, Option<string>>, list: seq<Connection>, i: nat)
    requires i < |list|
    ensures NameAll(names, list[..i + 1]) == NameOne(NameAll(names, list[..i]), list[i])
  {
    assert list[..i + 1][..i] == list[..i];
  }

  lemma LeaveIsEndedAbsent(stays: seq<Stay>, list: seq<Connection>, present: set<string>, at: int)
    requires forall id :: id in present <==> Proven(list, id)
    ensures Leave(stays, list, at) == EndedAbsent(stays, present, at)
  {
  }

  /** What `createSessionRecord` is given to sign. */
  datatype Record = Record(sessionId: string, openedAt: int, closedAt: int, devices: map<string, RecordDevice>,
      claims: set<string>)

  /** One session, with every span it ever began and every connection list it was given. */
  class Tracked {
    const sessionId: string
    const openedAt: int
    var devices: map<string, TrackedDevice>
    var live: map<string, LiveSpan>
    var claims: set<string>
    ghost var log: seq<LiveSpan>
    ghost var events: seq<Event>

    /** The two collections share the spans of the log. */
    ghost predicate Shared()
      reads this`devices, this`live, this`log, log
    {
      Distinct(log, sessionId) && ByDevice(devices, log) && ByConnection(live, log)
    }

    ghost predicate Valid()
      reads this`devices, this`live, this`log, this`events, log
    {
      Shared() && Stays() == History(openedAt, events) && Names() == Named(events)
    }

    ghost function Names(): map<string, Option<string>>
      reads this`devices
    {
      NamesOf(devices)
    }

    ghost function Stays(): seq<Stay>
      reads this`log, log
    {
      Values(log)
    }

    constructor (sessionId: string, openedAt: int)
      ensures Valid() && this.sessionId == sessionId && this.openedAt == openedAt
      ensures log == [] && events == [] && claims == {}
    {
      this.sessionId, this.openedAt := sessionId, openedAt;
      devices, live, claims, log, events := map[], map[], {}, [], [];
    }

    lemma LiveIsOpen(id: string)
      requires Shared()
      ensures id in live <==> IsOpen(Stays(), id)
    {
      if id in live {
        var i :| 0 <= i < |log| && log[i] == live[id];
        assert Stays()[i].leftAt.None?;
      }
      if i :| 0 <= i < |Stays()| && Stays()[i].id == id && Stays()[i].leftAt.None? {
        assert log[i] in log;
      }
    }

    /** One connection of the list: if it proved its key, its device is known and it has an open span. */
    method Touch(c: Connection)
      requires Shared()
      modifies this`devices, this`live, this`log
      ensures Shared() && forall s :: s in log ==> s in old(log) || fresh(s)
      ensures Stays() == JoinIfNew(old(Stays()), openedAt, c) && Names() == NameOne(old(Names()), c)
    {
      if c.deviceKey.Some? {
        NameDevice(c, c.deviceKey.value);
        BeginIfNew(c);
      }
    }

    method NameDevice(c: Connection, key: string)
      requires Shared() && c.deviceKey == Some(key)
      modifies this`devices
      ensures Shared() && key in devices && Stays() == old(Stays()) && Names() == NameOne(old(Names()), c)
    {
      var device := if key in devices then devices[key] else TrackedDevice(None, []);
      var named := device.(name := if c.name.Some? then c.name else device.name);
      NoneOfKey(log, key);
      NamesPut(devices, key, named);
      NamedByDevice(devices, log, key, named);
      devices := devices[key := named];
    }

    method BeginIfNew(c: Connection)
      requires Shared() && c.deviceKey.Some? && c.deviceKey.value in devices
      modifies this`devices, this`live, this`log
      ensures Shared() && forall s :: s in log ==> s in old(log) || fresh(s)
      ensures Stays() == JoinIfNew(old(Stays()), openedAt, c) && Names() == old(Names())
    {
      LiveIsOpen(c.id);
      if c.id !in live {
        ghost var span := Begin(c);
      }
    }

    /** The one new span goes into both collections. */
    method Begin(c: Connection) returns (ghost begun: LiveSpan)
      requires Shared() && c.deviceKey.Some? && c.deviceKey.value in devices && c.id !in live
      modifies this`devices, this`live, this`log
      ensures Shared() && fresh(begun) && log == old(log) + [begun]
      ensures Stays() == old(Stays()) + [Joined(c, openedAt)] && Names() == old(Names())
    {
      var span := new LiveSpan(Max(c.connectedAt, openedAt), c.id, c.deviceKey.value, sessionId);
      ValuesAppend(log, span);
      Link(span, c.id, c.deviceKey.value);
      begun := span;
    }

    method Link(span: LiveSpan, id: string, key: string)
      requires Shared() && key in devices && id !in live && span !in log
      requires span.id == id && span.key == key && span.session == sessionId && span.leftAt.None?
      modifies this`devices, this`live, this`log
      ensures Shared() && log == old(log) + [span] && Names() == old(Names())
    {
      var device := devices[key];
      ghost var devices0, live0, log0 := devices, live, log;
      live := live[id := span];
      devices := devices[key := device.(spans := device.spans + [span])];
      log := log + [span];
      SharedBegin(devices0, live0, log0, span, device.name);
      NamesPut(devices0, key, device.(spans := device.spans + [span]));
    }

    /** Ends one live span, which its device lists too. */
    method EndOne(id: string, span: LiveSpan, at: int)
      requires Shared() && id in live && live[id] == span
      modifies this`live, span`leftAt
      ensures Shared() && live == old(live) - {id} && Stays() == EndedOne(old(Stays()), id, at)
    {
      ghost var before := Stays();
      LiveInLog();
      StopAndEnd(id, span, at, before);
      assert Distinct(log, sessionId) && ByDevice(devices, log);
    }

    method StopAndEnd(id: string, span: LiveSpan, at: int, ghost before: seq<Stay>)
      requires before == Values(log) && id in live && live[id] == span
      requires forall k :: k in live ==> live[k] in log && live[k].id == k
      requires forall i :: 0 <= i < |log| ==>
        (before[i].leftAt.None? <==> log[i].id in live && live[log[i].id] == log[i])
      modifies this`live, span`leftAt
      ensures live == old(live) - {id} && ByConnection(live, log) && Values(log) == EndedOne(before, id, at)
    {
      Stop(span, at, log, before);
      EndedInLog(log, before, live, id, span, at);
      live := live - {id};
    }

    lemma LiveInLog()
      requires Shared()
      ensures forall k :: k in live ==> live[k] in log && live[k].id == k
      ensures forall i :: 0 <= i < |log| ==>
        (Stays()[i].leftAt.None? <==> log[i].id in live && live[log[i].id] == log[i])
    {
    }

    /** One turn of the loop below: `ids` are still to be looked at. */
    method EndIfAbsent(id: string, ids: set<string>, present: set<string>, at: int, ghost before: seq<Stay>)
      requires Shared() && id in ids && ids <= live.Keys && Stays() == EndedAbsent(before, present + ids, at)
      modifies this`live, log
      ensures Shared() && ids - {id} <= live.Keys
      ensures Stays() == EndedAbsent(before, present + (ids - {id}), at)
    {
      EndedNext(before, ids, present, id, at);
      if id !in present {
        EndOne(id, live[id], at);
      }
    }

    /** The second loop of `track`, and the loop of `close`: ends every live span that is not present. */
    method EndAbsent(present: set<string>, at: int)
      requires Shared()
      modifies this`live, log
      ensures Shared() && Stays() == EndedAbsent(old(Stays()), present, at)
    {
      ghost var before := Stays();
      var ids := live.Keys;
      OpenAreLive(ids);
      EndedNobody(before, ids, present, at);
      while ids != {}
        invariant Shared() && ids <= live.Keys
        invariant Stays() == EndedAbsent(before, present + ids, at)
        decreases ids
      {
        var id :| id in ids;
        EndIfAbsent(id, ids, present, at, before);
        ids := ids - {id};
      }
    }

    lemma OpenAreLive(ids: set<string>)
      requires Shared() && ids == live.Keys
      ensures forall i :: 0 <= i < |log| && Stays()[i].leftAt.None? ==> Stays()[i].id in ids
    {
    }

    /** One turn of the loop below. */
    method TouchNext(list: seq<Connection>, i: nat, ghost before: seq<Stay>, ghost names: map<string, Option<string>>)
      requires Shared() && i < |list| && Stays() == Join(before, openedAt, list[..i])
      requires Names() == NameAll(names, list[..i])
      modifies this`devices, this`live, this`log
      ensures Shared() && Stays() == Join(before, openedAt, list[..i + 1]) && Names() == NameAll(names, list[..i + 1])
      ensures forall s :: s in log ==> s in old(log) || fresh(s)
    {
      JoinNext(before, openedAt, list, i);
      NameNext(names, list, i);
      Touch(list[i]);
    }

    method Present(present: set<string>, list: seq<Connection>, i: nat) returns (next: set<string>)
      requires i < |list| && forall id :: id in present <==> Proven(list[..i], id)
      ensures forall id :: id in next <==> Proven(list[..i + 1], id)
    {
      ProvenNext(list, i);
      next := present + if list[i].deviceKey.Some? then {list[i].id} else {};
    }

    /** The first loop of `track`. */
    method JoinAll(list: seq<Connection>) returns (present: set<string>)
      requires Shared()
      modifies this`devices, this`live, this`log
      ensures Shared() && Stays() == Join(old(Stays()), openedAt, list) && Names() == NameAll(old(Names()), list)
      ensures forall id :: id in present <==> Proven(list, id)
      ensures forall s :: s in log ==> s in old(log) || fresh(s)
    {
      present := {};
      ghost var before, names := Stays(), Names();
      for i := 0 to |list|
        invariant Shared() && Stays() == Join(before, openedAt, list[..i]) && Names() == NameAll(names, list[..i])
        invariant forall id :: id in present <==> Proven(list[..i], id)
        invariant forall s :: s in log ==> s in old(log) || fresh(s)
      {
        present := Present(present, list, i);
        TouchNext(list, i, before, names);
      }
      assert list[..|list|] == list;
    }

    /** `track`. */
    method Track(list: seq<Connection>, at: int)
      requires Valid()
      modifies this`devices, this`live, this`log, this`events, log
      ensures Valid() && events == old(events) + [Event(list, at)]
      ensures forall s :: s in log ==> s in old(log) || fresh(s)
    {
      var present := JoinAll(list);
      EndOthers(list, present, at);
    }

    method EndOthers(list: seq<Connection>, present: set<string>, at: int)
      requires Shared() && Stays() == Join(History(openedAt, events), openedAt, list)
      requires Names() == NameAll(Named(events), list)
      requires forall id :: id in present <==> Proven(list, id)
      modifies this`live, this`events, log
      ensures Valid() && events == old(events) + [Event(list, at)]
    {
      ghost var joined := Stays();
      EndAbsent(present, at);
      LeaveIsEndedAbsent(joined, list, present, at);
      HistoryNext(openedAt, events, Event(list, at));
      Note(Event(list, at));
    }

    /** The synchronous part of `close`: connections stop counting, as if a last list were empty. */
    method End(closedAt: int)
      requires Valid()
      modifies this`live, this`events, log
      ensures Valid() && events == old(events) + [Event([], closedAt)]
    {
      EndOthers([], {}, closedAt);
    }

    ghost method Note(e: Event)
      requires Shared() && Stays() == History(openedAt, events + [e]) && Names() == Named(events + [e])
      modifies this`events
      ensures Valid() && events == old(events) + [e]
    {
      events := events + [e];
    }

    method EndAndRecord(now: int) returns (r: Record)
      requires Valid()
      modifies this`live, this`events, log
      ensures Valid() && events == old(events) + [Event([], now)]
      ensures r.sessionId == sessionId && r.openedAt == openedAt && r.closedAt == now && r.claims == claims
      ensures Records(r, events)
    {
      End(now);
      r := MakeRecord(now);
    }

    method AddClaim(claim: string)
      modifies this`claims
      ensures claims == old(claims) + {claim}
    {
      claims := claims + {claim};
    }

    /** What `sign` puts into the record. */
    method MakeRecord(closedAt: int) returns (r: Record)
      requires Valid()
      ensures r.sessionId == sessionId && r.openedAt == openedAt && r.closedAt == closedAt && r.claims == claims
      ensures r.devices.Keys == Named(events).Keys
      ensures forall k :: k in r.devices ==> r.devices[k].name == Named(events)[k]
      ensures forall k :: k in r.devices ==> r.devices[k].spans == SpansOfKey(History(openedAt, events), k, closedAt)
    {
      var listed: map<string, RecordDevice> := map[];
      var keys := devices.Keys;
      while keys != {}
        invariant keys <= devices.Keys && listed.Keys == devices.Keys - keys
        invariant forall k :: k in listed ==> listed[k].name == Names()[k]
        invariant forall k :: k in listed ==> listed[k].spans == SpansOfKey(History(openedAt, events), k, closedAt)
        decreases keys
      {
        var k :| k in keys;
        keys := keys - {k};
        OfKeyValues(log, k, closedAt);
        listed := listed[k := RecordDevice(devices[k].name, Listed(devices[k].spans, closedAt))];
      }
      assert Names().Keys == devices.Keys;
      r := Record(sessionId, openedAt, closedAt, listed, claims);
    }
  }

  function Listed(spans: seq<LiveSpan>, closedAt: int): (r: seq<(int, int)>)
    reads spans
    ensures |r| == |spans|
  {
    if spans == [] then []
    else
      var last := spans[|spans| - 1];
      Listed(spans[..|spans| - 1], closedAt) + [(last.joinedAt, if last.leftAt.Some? then last.leftAt.value
        else closedAt)]
  }

  lemma ListedAppend(spans: seq<LiveSpan>, s: LiveSpan, closedAt: int)
    ensures Listed(spans + [s], closedAt)
      == Listed(spans, closedAt) + [(s.joinedAt, if s.leftAt.Some? then s.leftAt.value else closedAt)]
    ensures spans + [] == spans
  {
    assert (spans + [s])[..|spans|] == spans;
  }

  lemma {:induction false} OfKeyValues(log: seq<LiveSpan>, key: string, closedAt: int)
    ensures Listed(OfKey(log, key), closedAt) == SpansOfKey(Values(log), key, closedAt)
  {
    if log != [] {
      var n := |log| - 1;
      OfKeyValues(log[..n], key, closedAt);
      assert Values(log)[..n] == Values(log[..n]);
      ListedAppend(OfKey(log[..n], key), log[n], closedAt);
    }
  }

  /**
   * The record lists exactly the devices that ever proved their key, each with the last name it gave
   * and the spans that the session's connection lists begin and end.
   */
  ghost predicate Records(r: Record, events: seq<Event>) {
    && events != [] && events[|events| - 1] == Event([], r.closedAt)
    && r.devices.Keys == Named(events).Keys
    && (forall k :: k in r.devices ==> r.devices[k].name == Named(events)[k])
    && (forall k :: k in r.devices ==> r.devices[k].spans == SpansOfKey(History(r.openedAt, events), k, r.closedAt))
  }

  /**
   * A device is in a record exactly when it proved its key during the session, and every span of the session is
   * under one.
   */
  lemma RecordsEveryDevice(r: Record, events: seq<Event>)
    requires Records(r, events)
    ensures forall key :: key in r.devices <==> EverProved(events, key)
    ensures forall i :: 0 <= i < |History(r.openedAt, events)| ==> History(r.openedAt, events)[i].key in r.devices
  {
    forall key
      ensures key in r.devices <==> EverProved(events, key)
    {
      NamedAreProved(events, key);
    }
    SpansAreNamed(r.openedAt, events);
  }

  /** Under each device a record lists when its stays in the session began and ended, and the last name it gave. */
  lemma RecordIs(r: Record, events: seq<Event>, key: string)
    requires Records(r, events) && key in r.devices
    ensures var spans, stays := r.devices[key].spans, OfDevice(History(r.openedAt, events), key);
      && |spans| == |stays|
      && forall i :: 0 <= i < |spans| ==> spans[i].0 == stays[i].joinedAt && Some(spans[i].1) == stays[i].leftAt
    ensures r.devices[key].name.None? <==> forall i, j :: 0 <= i < |events| ==> !GivesName(events[i].list, j, key)
    ensures r.devices[key].name.Some? ==>
      exists i, j :: IsLastName(events, i, j, key) && r.devices[key].name == events[i].list[j].name
  {
    ListedSpansAreStays(r.openedAt, events, key, r.closedAt);
    LastNameIsKept(events, key);
  }

  /** A closed session: what its record would hold now, and the record once it was made. */
  datatype Closing = Closing(tracked: Record, made: Option<Record>)

  /** The closed sessions, each under its ID, with its own spans and claims. */
  ghost predicate Pending(closing: map<string, Closing>, lists: map<string, seq<Event>>, sessionOf: string -> string) {
    forall id :: id in closing ==> id in lists && PendingOne(id, closing[id], lists[id], sessionOf)
  }

  ghost predicate PendingOne(id: string, c: Closing, events: seq<Event>, sessionOf: string -> string) {
    && c.tracked.sessionId == id && Records(c.tracked, events)
    && (forall claim :: claim in c.tracked.claims ==> sessionOf(claim) == id)
    && (c.made.Some? ==>
      c.made.value.claims <= c.tracked.claims && c.made.value == c.tracked.(claims := c.made.value.claims))
  }

  function WithClaim(closing: map<string, Closing>, id: string, claim: string): map<string, Closing> {
    if id in closing then closing[id := AddedTo(closing[id], claim)] else closing
  }

  function AddedTo(c: Closing, claim: string): Closing {
    c.(tracked := c.tracked.(claims := c.tracked.claims + {claim}))
  }

  lemma PendingWithClaim(closing: map<string, Closing>, lists: map<string, seq<Event>>, sessionOf: string -> string,
      id: string, claim: string)
    requires Pending(closing, lists, sessionOf) && sessionOf(claim) == id
    ensures Pending(WithClaim(closing, id, claim), lists, sessionOf)
  {
    if id in closing {
      var c := AddedTo(closing[id], claim);
      assert PendingOne(id, closing[id], lists[id], sessionOf);
      assert PendingOne(id, c, lists[id], sessionOf);
    }
  }

  lemma PendingPut(closing: map<string, Closing>, lists: map<string, seq<Event>>, sessionOf: string -> string,
      id: string, c: Closing, events: seq<Event>)
    requires Pending(closing, lists, sessionOf) && PendingOne(id, c, events, sessionOf)
    ensures Pending(closing[id := c], lists[id := events], sessionOf)
  {
  }

  /**
   * The recorder: the open session, and those that are closing. No span changes after the close, so a
   * closed session is kept as the record that would be made of it now, which only gains claims.
   */
  class Recorder {
    var current: Tracked?
    var closing: map<string, Closing>
    /** The session a claim names, by the claim's address. */
    ghost const sessionOf: string -> string
    /** The connection lists of each closed session. */
    ghost var lists: map<string, seq<Event>>

    ghost predicate Valid()
      reads this, current, if current == null then [] else current.log
    {
      && (current != null ==> current.Valid() && current.sessionId !in closing)
      && (current != null ==> forall claim :: claim in current.claims ==> sessionOf(claim) == current.sessionId)
      && Pending(closing, lists, sessionOf)
    }

    constructor (ghost sessionOf: string -> string)
      ensures Valid() && current == null && closing == map[] && this.sessionOf == sessionOf
    {
      current, closing, this.sessionOf, lists := null, map[], sessionOf, map[];
    }

    /** Refused while a session is open, or while one with this ID is still closing. */
    method Open(sessionId: string, now: int, connections: seq<Connection>) returns (ok: bool)
      requires Valid()
      modifies this`current
      ensures Valid()
      ensures ok <==> old(current) == null && sessionId !in closing
      ensures !ok ==> current == old(current)
      ensures ok ==> current != null && current.sessionId == sessionId && current.openedAt == now
      ensures ok ==> current.claims == {} && current.events == [Event(connections, now)]
      ensures ok ==> fresh(current) && forall s :: s in current.log ==> fresh(s)
    {
      if current != null || sessionId in closing {
        return false;
      }
      current := Started(sessionId, now, connections);
      ok := true;
    }

    static method Started(sessionId: string, now: int, connections: seq<Connection>) returns (t: Tracked)
      ensures fresh(t) && t.Valid() && t.sessionId == sessionId && t.openedAt == now
      ensures t.claims == {} && t.events == [Event(connections, now)] && forall s :: s in t.log ==> fresh(s)
    {
      t := new Tracked(sessionId, now);
      t.Track(connections, now);
    }

    method ConnectionsChanged(list: seq<Connection>, now: int)
      requires Valid()
      modifies current, if current == null then [] else current.log
      ensures Valid()
      ensures current != null ==>
        current.events == old(current.events) + [Event(list, now)] && current.claims == old(current.claims)
    {
      if current == null {
        return;
      }
      TrackOpen(current, list, now);
    }

    method TrackOpen(t: Tracked, list: seq<Connection>, now: int)
      requires Valid() && current == t
      modifies t, t.log
      ensures Valid() && t.events == old(t.events) + [Event(list, now)] && t.claims == old(t.claims)
    {
      t.Track(list, now);
    }

    /** A claim enters only the session it names, while that is open or closing, and no record that is made. */
    method ClaimVerified(sessionId: string, claim: string)
      requires Valid() && sessionOf(claim) == sessionId
      modifies this`closing, (if current == null then {} else {current})`claims
      ensures Valid()
      ensures current != null && current.sessionId == sessionId ==> current.claims == old(current.claims) + {claim}
      ensures current != null && current.sessionId != sessionId ==> current.claims == old(current.claims)
      ensures closing == if current != null && current.sessionId == sessionId then old(closing)
        else WithClaim(old(closing), sessionId, claim)
    {
      var t := current;
      if t != null && t.sessionId == sessionId {
        t.AddClaim(claim);
        assert t.Valid() && Pending(closing, lists, sessionOf);
      } else {
        AddToClosing(sessionId, claim);
      }
    }

    method AddToClosing(sessionId: string, claim: string)
      requires Valid() && sessionOf(claim) == sessionId
      modifies this`closing
      ensures Valid() && closing == WithClaim(old(closing), sessionId, claim)
    {
      PendingWithClaim(closing, lists, sessionOf, sessionId, claim);
      if sessionId in closing {
        closing := closing[sessionId := AddedTo(closing[sessionId], claim)];
      }
    }

    /** Connections stop counting now; claims keep coming until the record is delivered. */
    method Close(now: int) returns (r: Option<Record>)
      requires Valid()
      modifies this`current, this`closing, this`lists
      modifies if current == null then {} else {current}, if current == null then [] else current.log
      ensures Valid() && current == null
      ensures old(current) == null ==> r == None && closing == old(closing)
      ensures old(current) != null ==>
        r.Some? && closing == old(closing)[old(current.sessionId) := Closing(r.value, None)]
      ensures old(current) != null ==>
        lists == old(lists)[old(current.sessionId) := old(current.events) + [Event([], now)]]
      ensures old(current) != null ==> r.value.openedAt == old(current.openedAt) && r.value.closedAt == now
      ensures old(current) != null ==> r.value.claims == old(current.claims)
    {
      if current == null {
        return None;
      }
      var record := CloseOpen(current, now);
      r := Some(record);
    }

    method CloseOpen(t: Tracked, now: int) returns (r: Record)
      requires Valid() && current == t
      modifies this`current, this`closing, this`lists, t`live, t`events, t.log
      ensures Valid() && current == null
      ensures closing == old(closing)[t.sessionId := Closing(r, None)]
      ensures lists == old(lists)[t.sessionId := old(t.events) + [Event([], now)]]
      ensures r.openedAt == t.openedAt && r.closedAt == now && r.claims == t.claims
    {
      r := t.EndAndRecord(now);
      Await(t.sessionId, r, t.events);
    }

    /** The closed session goes into its grace period. */
    method Await(sessionId: string, r: Record, ghost events: seq<Event>)
      requires Pending(closing, lists, sessionOf) && PendingOne(sessionId, Closing(r, None), events, sessionOf)
      modifies this`current, this`closing, this`lists
      ensures Valid() && current == null
      ensures closing == old(closing)[sessionId := Closing(r, None)] && lists == old(lists)[sessionId := events]
    {
      PendingPut(closing, lists, sessionOf, sessionId, Closing(r, None), events);
      lists := lists[sessionId := events];
      closing := closing[sessionId := Closing(r, None)];
      current := null;
    }

    /** The end of the grace period: the record is made of what the session has so far, to be signed and stored. */
    method Sign(sessionId: string) returns (r: Record)
      requires Valid() && sessionId in closing && closing[sessionId].made.None?
      modifies this`closing
      ensures Valid() && r == old(closing)[sessionId].tracked
      ensures closing == old(closing)[sessionId := Closing(r, Some(r))]
      ensures r.sessionId == sessionId && sessionId in lists && Records(r, lists[sessionId])
      ensures forall claim :: claim in r.claims ==> sessionOf(claim) == sessionId
    {
      r := closing[sessionId].tracked;
      assert PendingOne(sessionId, closing[sessionId], lists[sessionId], sessionOf);
      KeepCurrent(sessionId, Closing(r, Some(r)));
    }

    /** The record is stored: it is listed on the recordings of the claims that came until now. */
    method Deliver(sessionId: string) returns (r: Record, claims: set<string>)
      requires Valid() && sessionId in closing && closing[sessionId].made.Some?
      ensures r == closing[sessionId].made.value && claims == closing[sessionId].tracked.claims
      ensures r.sessionId == sessionId && sessionId in lists && Records(r, lists[sessionId]) && r.claims <= claims
      ensures forall claim :: claim in claims ==> sessionOf(claim) == sessionId
    {
      assert PendingOne(sessionId, closing[sessionId], lists[sessionId], sessionOf);
      r, claims := closing[sessionId].made.value, closing[sessionId].tracked.claims;
    }

    /** The delivery is over, or the record could not be made: the session is forgotten. */
    method Forget(sessionId: string)
      requires Valid()
      modifies this`closing
      ensures Valid() && closing == old(closing) - {sessionId}
    {
      closing := closing - {sessionId};
    }

    method KeepCurrent(sessionId: string, c: Closing)
      requires Valid() && sessionId in closing && PendingOne(sessionId, c, lists[sessionId], sessionOf)
      modifies this`closing
      ensures Valid() && closing == old(closing)[sessionId := c]
    {
      PendingPut(closing, lists, sessionOf, sessionId, c, lists[sessionId]);
      assert lists[sessionId := lists[sessionId]] == lists;
      closing := closing[sessionId := c];
    }
  }

  /** A session that opens and closes with no claim, up to its record. */
  method EmptySession(sessionId: string, ghost sessionOf: string -> string) returns (recorder: Recorder, r: Record)
    ensures fresh(recorder) && recorder.Valid() && recorder.current == null && recorder.sessionOf == sessionOf
    ensures recorder.closing == map[sessionId := Closing(r, Some(r))] && r.sessionId == sessionId && r.claims == {}
  {
    recorder := new Recorder(sessionOf);
    OpenAndClose(recorder, sessionId);
    assert recorder.closing[sessionId].made.None?;
    r := recorder.Sign(sessionId);
  }

  method OpenAndClose(recorder: Recorder, sessionId: string)
    requires recorder.Valid() && recorder.current == null && recorder.closing == map[]
    modifies recorder
    ensures recorder.Valid() && recorder.current == null
    ensures exists r: Record :: recorder.closing == map[sessionId := Closing(r, None)] && r.sessionId == sessionId
              && r.claims == {}
  {
    var ok := recorder.Open(sessionId, 0, []);
    var r := recorder.Close(1);
    assert PendingOne(sessionId, recorder.closing[sessionId], recorder.lists[sessionId], recorder.sessionOf);
    assert recorder.closing == map[sessionId := Closing(r.value, None)];
  }

  /** A run in which a claim of the session comes between the making of its record and the delivery. */
  method LateClaimRun(sessionId: string, claim: string, ghost sessionOf: string -> string)
      returns (r: Record, claims: set<string>)
    requires sessionOf(claim) == sessionId
    ensures r.sessionId == sessionId && r.claims == {} && claims == {claim}
  {
    var recorder;
    recorder, r := EmptySession(sessionId, sessionOf);
    recorder.ClaimVerified(sessionId, claim);
    r, claims := recorder.Deliver(sessionId);
  }

  /** Every span in a signed record is within its session, whatever lists came under a sound clock. */
  lemma SignedSpansAreWithin(r: Record, events: seq<Event>, key: string, i: nat)
    requires Records(r, events) && Clocked(r.openedAt, events)
    requires key in r.devices && i < |r.devices[key].spans|
    ensures r.openedAt <= r.devices[key].spans[i].0 <= r.devices[key].spans[i].1 <= r.closedAt
  {
    RecordedSpansAreWithin(r.openedAt, events, key, r.closedAt);
  }
}

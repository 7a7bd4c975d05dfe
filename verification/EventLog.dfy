/**
 * The append-only log of `eventStore.ts`: one segment a UTC day, listed in date
 * order, and the rule that decides which events of a batch are new.
 */
module EventLog {
  import opened Wrappers
  import opened PlayTotals

  const DAY_MS := 24 * 60 * 60 * 1000

  /** A day's file. `day` counts days from the epoch, so it orders as the ISO file names do. */
  datatype Segment = Segment(day: int, events: seq<StoredEvent>)

  /** The directory as `readdir` and `sort` list it. */
  type Log = seq<Segment>

  function DayOf(ms: int): int {
    ms / DAY_MS
  }

  /** The first instant after the day a segment covers. */
  function SegmentEnd(day: int): int {
    (day + 1) * DAY_MS
  }

  /** A segment ends right after the last instant that is filed in it. */
  lemma SegmentEndIs(day: int, ms: int)
    ensures DayOf(ms) <= day <==> ms < SegmentEnd(day)
  {
  }

  /** What the dedupe index is keyed on: ids are unique only within a device. */
  function DedupeKey(e: PlaybackEvent): string {
    (if e.deviceId.Some? then e.deviceId.value else "unknown") + "\0" + e.id
  }

  ghost predicate Sorted(log: Log) {
    forall i, j :: 0 <= i < j < |log| ==> log[i].day < log[j].day
  }

  function Days(log: Log): seq<int> {
    if log == [] then [] else [log[0].day] + Days(log[1..])
  }

  function EventsOf(log: Log, day: int): seq<StoredEvent> {
    if log == [] then [] else if log[0].day == day then log[0].events else EventsOf(log[1..], day)
  }

  /** Every event of the segments that are not skipped, oldest segment first. */
  function Live(log: Log, skipped: set<int>): seq<StoredEvent> {
    if log == [] then []
    else (if log[0].day in skipped then [] else log[0].events) + Live(log[1..], skipped)
  }

  function AllEvents(log: Log): seq<StoredEvent> {
    Live(log, {})
  }

  /** `appendFile` on the day's file, which it creates when missing. */
  function AppendTo(log: Log, day: int, es: seq<StoredEvent>): Log {
    if log == [] || day < log[0].day then [Segment(day, es)] + log
    else if log[0].day == day then [Segment(day, log[0].events + es)] + log[1..]
    else [log[0]] + AppendTo(log[1..], day, es)
  }

  function Unlink(log: Log, day: int): Log {
    if log == [] then []
    else if log[0].day == day then log[1..]
    else [log[0]] + Unlink(log[1..], day)
  }

  function Keys(es: seq<StoredEvent>): set<string> {
    set e | e in es :: DedupeKey(e.event)
  }

  ghost predicate DistinctKeys(es: seq<StoredEvent>) {
    forall i, j :: 0 <= i < j < |es| ==> DedupeKey(es[i].event) != DedupeKey(es[j].event)
  }

  /** What `append` decides about a batch before it writes: the new events, and the ids it already had. */
  datatype Verdict = Verdict(accepted: seq<StoredEvent>, duplicates: seq<string>)

  function Judge(seen: set<string>, batch: seq<PlaybackEvent>, now: int): Verdict {
    if batch == [] then Verdict([], [])
    else
      var v := Judge(seen, batch[..|batch| - 1], now);
      var e := batch[|batch| - 1];
      if e.id == "" then v
      else if DedupeKey(e) in seen + Keys(v.accepted) then Verdict(v.accepted, v.duplicates + [e.id])
      else Verdict(v.accepted + [StoredEvent(e, now)], v.duplicates)
  }

  /** The new events are distinct and unseen, and nothing with an id is left undecided. */
  lemma {:induction false} JudgeFacts(seen: set<string>, batch: seq<PlaybackEvent>, now: int)
    ensures var v := Judge(seen, batch, now);
      && DistinctKeys(v.accepted)
      && Keys(v.accepted) !! seen
      && (forall h :: h in v.accepted ==> h.event in batch && h.event.id != "")
      && (forall e :: e in batch && e.id != "" ==> DedupeKey(e) in seen + Keys(v.accepted))
      && (forall d :: d in v.duplicates ==>
        exists e :: e in batch && e.id == d && DedupeKey(e) in seen + Keys(v.accepted))
  {
    if batch != [] {
      var n := |batch| - 1;
      JudgeFacts(seen, batch[..n], now);
      var v, w := Judge(seen, batch[..n], now), Judge(seen, batch, now);
      var e := batch[n];
      assert Keys(v.accepted) <= Keys(w.accepted);
      forall x | x in batch && x.id != ""
        ensures DedupeKey(x) in seen + Keys(w.accepted)
      {
        if x !in batch[..n] {
          assert x == e;
          if DedupeKey(e) !in seen + Keys(v.accepted) {
            assert w.accepted[|w.accepted| - 1].event == e;
          }
        }
      }
      forall d | d in w.duplicates
        ensures exists x :: x in batch && x.id == d && DedupeKey(x) in seen + Keys(w.accepted)
      {
        if d in v.duplicates {
          var x :| x in batch[..n] && x.id == d && DedupeKey(x) in seen + Keys(v.accepted);
          assert x in batch;
        } else {
          assert e in batch;
        }
      }
    }
  }

  /** An event with an id and an unseen key that no earlier one of the batch has. */
  ghost predicate IsFirst(seen: set<string>, batch: seq<PlaybackEvent>, i: int) {
    && 0 <= i < |batch| && batch[i].id != "" && DedupeKey(batch[i]) !in seen
    && forall j :: 0 <= j < i && batch[j].id != "" ==> DedupeKey(batch[j]) != DedupeKey(batch[i])
  }

  /** Of the events with one key, the first of the batch is the one that is taken. */
  lemma {:induction false} JudgeTakesFirsts(seen: set<string>, batch: seq<PlaybackEvent>, now: int, e: PlaybackEvent)
    ensures StoredEvent(e, now) in Judge(seen, batch, now).accepted
      <==> exists i :: IsFirst(seen, batch, i) && batch[i] == e
  {
    if batch != [] {
      var n := |batch| - 1;
      var front, last := batch[..n], batch[n];
      JudgeTakesFirsts(seen, front, now, e);
      JudgeFacts(seen, front, now);
      assert forall i :: i < n ==> (IsFirst(seen, front, i) <==> IsFirst(seen, batch, i));
      LastIsFirst(seen, batch, now);
      if StoredEvent(e, now) in Judge(seen, front, now).accepted {
        var i :| IsFirst(seen, front, i) && front[i] == e;
        assert IsFirst(seen, batch, i) && batch[i] == e;
      }
    }
  }

  lemma LastIsFirst(seen: set<string>, batch: seq<PlaybackEvent>, now: int)
    requires batch != []
    ensures var n := |batch| - 1;
      IsFirst(seen, batch, n) <==>
        batch[n].id != "" && DedupeKey(batch[n]) !in seen + Keys(Judge(seen, batch[..n], now).accepted)
  {
    var n := |batch| - 1;
    var front := batch[..n];
    JudgeFacts(seen, front, now);
    if DedupeKey(batch[n]) in Keys(Judge(seen, front, now).accepted) {
      var h :| h in Judge(seen, front, now).accepted && DedupeKey(h.event) == DedupeKey(batch[n]);
      var j :| 0 <= j < n && front[j] == h.event;
      assert batch[j] == h.event;
    }
    forall j | 0 <= j < n && batch[j].id != ""
      ensures DedupeKey(batch[j]) in seen + Keys(Judge(seen, front, now).accepted)
    {
      assert front[j] in front;
    }
  }

  /** Each event with an id is answered: as a duplicate, or as new and then taken with the time of now. */
  lemma {:induction false} JudgeAnswersAll(seen: set<string>, batch: seq<PlaybackEvent>, now: int)
    ensures var v := Judge(seen, batch, now);
      && (forall h :: h in v.accepted ==> h.receivedAt == now)
      && (forall e :: e in batch && e.id != "" ==> e.id in v.duplicates || StoredEvent(e, now) in v.accepted)
      && |v.accepted| + |v.duplicates| <= |batch|
  {
    if batch != [] {
      var n := |batch| - 1;
      JudgeAnswersAll(seen, batch[..n], now);
      assert forall x :: x in batch ==> x in batch[..n] || x == batch[n];
    }
  }

  lemma {:induction false} AppendSorted(log: Log, day: int, es: seq<StoredEvent>)
    requires Sorted(log)
    ensures Sorted(AppendTo(log, day, es))
    ensures forall s :: s in AppendTo(log, day, es) ==> s.day == day || s.day in Days(log)
    ensures forall d :: d in Days(AppendTo(log, day, es)) <==> d == day || d in Days(log)
  {
    DaysAreListed(log);
    DaysAreListed(AppendTo(log, day, es));
    if log != [] && log[0].day < day {
      AppendSorted(log[1..], day, es);
      DaysAreListed(log[1..]);
    }
  }

  lemma {:induction false} DaysAreListed(log: Log)
    ensures |Days(log)| == |log|
    ensures forall i :: 0 <= i < |log| ==> Days(log)[i] == log[i].day
  {
    if log != [] {
      DaysAreListed(log[1..]);
    }
  }

  lemma {:induction false} UnlinkSorted(log: Log, day: int)
    requires Sorted(log)
    ensures Sorted(Unlink(log, day))
    ensures forall d :: d in Days(Unlink(log, day)) <==> d != day && d in Days(log)
  {
    DaysAreListed(log);
    DaysAreListed(Unlink(log, day));
    if log != [] {
      DaysAreListed(log[1..]);
      if log[0].day != day {
        UnlinkSorted(log[1..], day);
      }
    }
  }

  lemma Regroup(a: seq<StoredEvent>, b: seq<StoredEvent>, c: seq<StoredEvent>)
    ensures a + (b + c) == a + b + c
  {
  }

  lemma Regroup3(a: seq<StoredEvent>, b: seq<StoredEvent>, c: seq<StoredEvent>, d: seq<StoredEvent>)
    ensures a + (b + c + d) == a + b + c + d
  {
  }

  /** Appending inserts the batch at one point of the listing. */
  lemma {:induction false} AppendSplits(log: Log, day: int, es: seq<StoredEvent>, skipped: set<int>)
      returns (before: seq<StoredEvent>, after: seq<StoredEvent>)
    requires day !in skipped
    ensures Live(log, skipped) == before + after
    ensures Live(AppendTo(log, day, es), skipped) == before + es + after
  {
    if log == [] || day < log[0].day {
      before, after := [], Live(log, skipped);
      assert ([Segment(day, es)] + log)[1..] == log;
    } else if log[0].day == day {
      before, after := log[0].events, Live(log[1..], skipped);
    } else {
      var front, back := AppendSplits(log[1..], day, es, skipped);
      var first := if log[0].day in skipped then [] else log[0].events;
      before, after := first + front, back;
      Regroup(first, front, back);
      Regroup3(first, front, es, back);
    }
  }

  /** Skipping one more day removes exactly its events from the listing. */
  lemma {:induction false} SkipSplits(log: Log, skipped: set<int>, day: int)
      returns (before: seq<StoredEvent>, after: seq<StoredEvent>)
    requires Sorted(log) && day !in skipped
    ensures Live(log, skipped) == before + EventsOf(log, day) + after
    ensures Live(log, skipped + {day}) == before + after
  {
    if log == [] {
      before, after := [], [];
    } else if log[0].day == day {
      before, after := [], Live(log[1..], skipped);
      SkipAbsent(log[1..], skipped, {day});
    } else {
      var front, back := SkipSplits(log[1..], skipped, day);
      var first := if log[0].day in skipped then [] else log[0].events;
      before, after := first + front, back;
      Regroup(first, front, back);
      Regroup3(first, front, EventsOf(log[1..], day), back);
      assert EventsOf(log, day) == EventsOf(log[1..], day);
    }
  }

  lemma {:induction false} SkipAbsent(log: Log, skipped: set<int>, absent: set<int>)
    requires forall s :: s in log ==> s.day !in absent
    ensures Live(log, skipped + absent) == Live(log, skipped)
  {
    if log != [] {
      SkipAbsent(log[1..], skipped, absent);
    }
  }

  lemma {:induction false} UnlinkIsSkip(log: Log, skipped: set<int>, day: int)
    requires Sorted(log)
    ensures Live(Unlink(log, day), skipped) == Live(log, skipped + {day})
  {
    if log != [] {
      if log[0].day == day {
        SkipAbsent(log[1..], skipped, {day});
      } else {
        UnlinkIsSkip(log[1..], skipped, day);
      }
    }
  }

  lemma KeysConcat(a: seq<StoredEvent>, b: seq<StoredEvent>)
    ensures Keys(a + b) == Keys(a) + Keys(b)
  {
  }

  lemma DistinctInsert(a: seq<StoredEvent>, b: seq<StoredEvent>, c: seq<StoredEvent>)
    requires DistinctKeys(a + c) && DistinctKeys(b)
    requires Keys(b) !! Keys(a + c)
    ensures DistinctKeys(a + b + c)
    ensures Keys(a + b + c) == Keys(a + c) + Keys(b)
  {
    var all := a + b + c;
    forall i, j | 0 <= i < |b| && 0 <= j < |a + c|
      ensures DedupeKey(b[i].event) != DedupeKey((a + c)[j].event)
    {
      assert DedupeKey(b[i].event) in Keys(b) && DedupeKey((a + c)[j].event) in Keys(a + c);
    }
    forall i, j | 0 <= i < j < |all|
      ensures DedupeKey(all[i].event) != DedupeKey(all[j].event)
    {
      var i' := if i < |a| then i else i - |b|;
      var j' := if j < |a| then j else j - |b|;
      if !(|a| <= i < |a| + |b|) && !(|a| <= j < |a| + |b|) {
        assert all[i] == (a + c)[i'] && all[j] == (a + c)[j'];
      } else if |a| <= i < |a| + |b| && |a| <= j < |a| + |b| {
        assert all[i] == b[i - |a|] && all[j] == b[j - |a|];
      } else if |a| <= i < |a| + |b| {
        assert all[i] == b[i - |a|] && all[j] == (a + c)[j'];
      } else {
        assert all[j] == b[j - |a|] && all[i] == (a + c)[i'];
      }
    }
  }

  lemma DistinctRemove(a: seq<StoredEvent>, b: seq<StoredEvent>, c: seq<StoredEvent>)
    requires DistinctKeys(a + b + c)
    ensures DistinctKeys(a + c) && DistinctKeys(b)
    ensures Keys(b) !! Keys(a + c)
    ensures Keys(a + b + c) == Keys(a + c) + Keys(b)
  {
    var all := a + b + c;
    forall i, j | 0 <= i < j < |a + c|
      ensures DedupeKey((a + c)[i].event) != DedupeKey((a + c)[j].event)
    {
      assert (a + c)[i] == all[if i < |a| then i else i + |b|];
      assert (a + c)[j] == all[if j < |a| then j else j + |b|];
    }
    forall i, j | 0 <= i < j < |b|
      ensures DedupeKey(b[i].event) != DedupeKey(b[j].event)
    {
      assert b[i] == all[|a| + i] && b[j] == all[|a| + j];
    }
    forall i, j | 0 <= i < |b| && 0 <= j < |a + c|
      ensures DedupeKey(b[i].event) != DedupeKey((a + c)[j].event)
    {
      assert b[i] == all[|a| + i];
      assert (a + c)[j] == all[if j < |a| then j else j + |b|];
    }
  }

  lemma OnlyOneNul(device: string, id: string, at: nat)
    requires '\0' !in device && '\0' !in id
    requires at < |device + "\0" + id| && (device + "\0" + id)[at] == '\0'
    ensures at == |device|
  {
  }

  /** A key with exactly one NUL belongs to one device and id. */
  lemma DedupeKeyIsInjective(a: PlaybackEvent, b: PlaybackEvent)
    requires a.deviceId.Some? && a.deviceId.value != "unknown"
    requires '\0' !in a.deviceId.value && '\0' !in a.id
    requires DedupeKey(a) == DedupeKey(b)
    ensures a.deviceId == b.deviceId && a.id == b.id
  {
    var p, q := a.deviceId.value, if b.deviceId.Some? then b.deviceId.value else "unknown";
    var k := DedupeKey(a);
    assert k[|q|] == '\0';
    OnlyOneNul(p, a.id, |q|);
    assert p == k[..|p|] && q == k[..|q|];
    assert a.id == k[|p| + 1..] && b.id == k[|q| + 1..];
  }

  /** What makes an event's key its own. */
  predicate HasOwnKey(a: PlaybackEvent) {
    a.deviceId.Some? && a.deviceId.value != "unknown" && '\0' !in a.deviceId.value && '\0' !in a.id
  }

  /**
   * No event of another device or id has the key of `a` exactly when neither of its two names carries
   * a NUL and its device is named, and is not named `unknown`.
   */
  lemma DedupeKeyIsOwnIff(a: PlaybackEvent)
    ensures (forall b :: DedupeKey(a) == DedupeKey(b) ==> a.deviceId == b.deviceId && a.id == b.id) <==> HasOwnKey(a)
  {
    if HasOwnKey(a) {
      forall b | DedupeKey(a) == DedupeKey(b)
        ensures a.deviceId == b.deviceId && a.id == b.id
      {
        DedupeKeyIsInjective(a, b);
      }
    } else {
      var b := Twin(a);
      TwinCollides(a);
      assert DedupeKey(a) == DedupeKey(b);
    }
  }

  /** Where the first NUL stands. */
  function FirstNul(s: string): (i: nat)
    requires '\0' in s
    ensures i < |s| && s[i] == '\0'
  {
    if s[0] == '\0' then 0 else 1 + FirstNul(s[1..])
  }

  /** No device and `unknown` change places, and a NUL of one name moves the split to itself. */
  function Twin(a: PlaybackEvent): PlaybackEvent
    requires !HasOwnKey(a)
  {
    if a.deviceId.None? then a.(deviceId := Some("unknown"))
    else if a.deviceId.value == "unknown" then a.(deviceId := None)
    else if '\0' in a.deviceId.value then
      var d, i := a.deviceId.value, FirstNul(a.deviceId.value);
      a.(deviceId := Some(d[..i]), id := d[i + 1..] + "\0" + a.id)
    else
      var i := FirstNul(a.id);
      a.(deviceId := Some(a.deviceId.value + "\0" + a.id[..i]), id := a.id[i + 1..])
  }

  lemma TwinCollides(a: PlaybackEvent)
    requires !HasOwnKey(a)
    ensures DedupeKey(Twin(a)) == DedupeKey(a)
    ensures Twin(a).deviceId != a.deviceId
  {
    if a.deviceId.Some? && a.deviceId.value != "unknown" {
      var d := a.deviceId.value;
      if '\0' in d {
        var i := FirstNul(d);
        assert d == d[..i] + "\0" + d[i + 1..];
        assert |d[..i]| != |d|;
      } else {
        var i := FirstNul(a.id);
        assert a.id == a.id[..i] + "\0" + a.id[i + 1..];
        assert |d + "\0" + a.id[..i]| != |d|;
      }
    }
  }

  lemma DedupeKeyCanCollide(url: string, at: string)
    ensures
      var a := PlaybackEvent("c", url, 1.0, at, Some("a\0b"));
      var b := PlaybackEvent("b\0c", url, 1.0, at, Some("a"));
      && DedupeKey(a) == DedupeKey(b) && a.deviceId != b.deviceId && a.id != b.id
  {
    assert "a\0b" + "\0" + "c" == "a" + "\0" + "b\0c";
    assert "a\0b" != "a" by { assert |"a\0b"| != |"a"|; }
    assert "c" != "b\0c" by { assert |"c"| != |"b\0c"|; }
  }
}

/**
 * The stores of `eventStore.ts` and `aggregates.ts` as objects. Every method is shown to be a
 * run of the retention machine, so each point between two of its disk effects is a state the
 * machine's theorems speak about.
 */
module AggregateStore {
  import opened Wrappers
  import opened PlayTotals
  import opened EventLog
  import opened Retention
  import opened RetentionSafety
  import opened RetentionTheorems

  /** The files under the store's root. An effect may fail; a failed write of the temp file leaves it torn. */
  class Files {
    var log: Log
    var baseline: BaselineFile
    var tmp: BaselineFile
    ghost var clock: int
    ghost var history: seq<StoredEvent>
    ghost var gone: set<string>

    constructor ()
      ensures log == [] && baseline == Missing && tmp == Missing
      ensures clock == 0 && history == [] && gone == {}
    {
      log, baseline, tmp := [], Missing, Missing;
      clock, history, gone := 0, [], {};
    }

    ghost function OnDisk(): Disk
      reads this
    {
      Disk(log, baseline, tmp)
    }

    /** A failed append wrote nothing. */
    method AppendFile(day: int, es: seq<StoredEvent>) returns (ok: bool)
      modifies this`log, this`history
      ensures log == if ok then AppendTo(old(log), day, es) else old(log)
      ensures history == if ok then old(history) + es else old(history)
    {
      ok := *;
      if ok {
        log, history := AppendTo(log, day, es), history + es;
      }
    }

    method WriteTmp(content: BaselineFile) returns (ok: bool)
      modifies this`tmp
      ensures tmp == if ok then content else Corrupt
    {
      ok := *;
      tmp := if ok then content else Corrupt;
    }

    method RenameTmp() returns (ok: bool)
      modifies this`baseline, this`tmp
      ensures baseline == if ok then old(tmp) else old(baseline)
      ensures tmp == if ok then Missing else old(tmp)
    {
      ok := *;
      if ok {
        baseline, tmp := tmp, Missing;
      }
    }

    method Remove(day: int) returns (ok: bool)
      modifies this`log, this`gone
      ensures log == if ok then Unlink(old(log), day) else old(log)
      ensures gone == if ok then old(gone) + Keys(EventsOf(old(log), day)) else old(gone)
    {
      ok := *;
      if ok {
        gone := gone + Keys(EventsOf(log, day));
        log := Unlink(log, day);
      }
    }
  }

  lemma JudgeNext(seen: set<string>, events: seq<PlaybackEvent>, i: nat, now: int)
    requires i < |events|
    ensures var v, e := Judge(seen, events[..i], now), events[i];
      Judge(seen, events[..i + 1], now)
      == if e.id == "" then v
         else if DedupeKey(e) in seen + Keys(v.accepted) then Verdict(v.accepted, v.duplicates + [e.id])
         else Verdict(v.accepted + [StoredEvent(e, now)], v.duplicates)
  {
    assert events[..i + 1][..i] == events[..i];
  }

  lemma KeysAppend(es: seq<StoredEvent>, e: StoredEvent)
    ensures Keys(es + [e]) == Keys(es) + {DedupeKey(e.event)}
  {
    KeysConcat(es, [e]);
  }

  /** The keys of the due segments. */
  function DueKeys(log: Log, cutoff: int): set<string> {
    if log == [] then {}
    else
      var last := log[|log| - 1];
      DueKeys(log[..|log| - 1], cutoff) + if SegmentEnd(last.day) <= cutoff then Keys(last.events) else {}
  }

  /** A due segment is the first of its day in what remains. */
  lemma DueNext(log: Log, i: nat, cutoff: int)
    requires Sorted(log) && i < |log| && SegmentEnd(log[i].day) <= cutoff
    ensures EventsOf(Remaining(log, i, cutoff), log[i].day) == log[i].events
    ensures Unlink(Remaining(log, i, cutoff), log[i].day) == Remaining(log, i + 1, cutoff)
  {
    NotDueAppend(log[..i], log[i], cutoff);
    assert log[..i] + [log[i]] == log[..i + 1] && log[i..][1..] == log[i + 1..];
    NotDueFrom(log[..i], cutoff);
    assert NotDue(log[..i], cutoff) + [] == NotDue(log[..i], cutoff);
    FindMiddle(NotDue(log[..i], cutoff), log[i..]);
  }

  lemma KeptNext(log: Log, i: nat, cutoff: int)
    requires i < |log| && SegmentEnd(log[i].day) > cutoff
    ensures Remaining(log, i + 1, cutoff) == Remaining(log, i, cutoff)
  {
    NotDueAppend(log[..i], log[i], cutoff);
    assert log[..i] + [log[i]] == log[..i + 1] && log[i..] == [log[i]] + log[i + 1..];
  }

  lemma DueKeysNext(log: Log, i: nat, cutoff: int)
    requires i < |log|
    ensures DueKeys(log[..i + 1], cutoff)
      == DueKeys(log[..i], cutoff) + if SegmentEnd(log[i].day) <= cutoff then Keys(log[i].events) else {}
  {
    assert log[..i + 1][..i] == log[..i] && log[..i + 1][i] == log[i];
  }

  lemma SweptNone(log: Log, before: set<string>, cutoff: int)
    ensures |Days(log)| == |log| && Remaining(log, 0, cutoff) == log && before - DueKeys(log[..0], cutoff) == before
  {
    DaysAreListed(log);
    assert log[..0] == [];
  }

  lemma DayAt(log: Log, i: nat)
    requires i < |log| == |Days(log)|
    ensures Days(log)[i] == log[i].day
  {
    DaysAreListed(log);
  }

  lemma SweptAll(log: Log, cutoff: int)
    ensures Remaining(log, |log|, cutoff) == NotDue(log, cutoff)
    ensures DueKeys(log[..|log|], cutoff) == DueKeys(log, cutoff)
  {
    assert log[..|log|] == log;
  }

  lemma {:induction false} NotDueAppend(log: Log, s: Segment, cutoff: int)
    ensures NotDue(log + [s], cutoff) == NotDue(log, cutoff) + if SegmentEnd(s.day) <= cutoff then [] else [s]
  {
    if log == [] {
      assert log + [s] == [s] && [s][1..] == [];
    } else {
      assert (log + [s])[1..] == log[1..] + [s];
      NotDueAppend(log[1..], s, cutoff);
    }
  }

  lemma {:induction false} NotDueFrom(log: Log, cutoff: int)
    ensures forall s :: s in NotDue(log, cutoff) ==> s in log
  {
    if log != [] {
      NotDueFrom(log[1..], cutoff);
    }
  }

  lemma {:induction false} FindMiddle(left: Log, right: Log)
    requires right != [] && forall s :: s in left ==> s.day != right[0].day
    ensures EventsOf(left + right, right[0].day) == right[0].events
    ensures Unlink(left + right, right[0].day) == left + right[1..]
  {
    if left == [] {
      assert left + right == right;
    } else {
      assert left[0] in left && (left + right)[1..] == left[1..] + right;
      FindMiddle(left[1..], right);
    }
  }

  class EventStore {
    const files: Files
    var seen: set<string>

    constructor (files: Files)
      ensures this.files == files && seen == {}
    {
      this.files := files;
      seen := {};
    }

    /** Loads the dedupe index, one segment and one event at a time. */
    method Open()
      modifies this
      ensures seen == old(seen) + Keys(AllEvents(files.log))
    {
      var i := 0;
      while i < |files.log|
        invariant 0 <= i <= |files.log|
        invariant seen + Keys(AllEvents(files.log[i..])) == old(seen) + Keys(AllEvents(files.log))
      {
        var es := files.log[i].events;
        ghost var before := seen;
        var j := 0;
        while j < |es|
          invariant 0 <= j <= |es|
          invariant seen == before + Keys(es[..j])
        {
          assert es[..j + 1] == es[..j] + [es[j]];
          seen := seen + {DedupeKey(es[j].event)};
          j := j + 1;
        }
        assert es[..|es|] == es;
        KeysConcat(es, AllEvents(files.log[i..][1..]));
        assert files.log[i..][1..] == files.log[i + 1..];
        i := i + 1;
      }
    }

    /** Splits a batch into what is new, which enters the index, and what is not. */
    method Sift(events: seq<PlaybackEvent>, now: int) returns (accepted: seq<StoredEvent>, duplicates: seq<string>)
      modifies this
      ensures Verdict(accepted, duplicates) == Judge(old(seen), events, now) && seen == old(seen) + Keys(accepted)
    {
      accepted, duplicates := [], [];
      var i := 0;
      while i < |events|
        invariant 0 <= i <= |events|
        invariant Verdict(accepted, duplicates) == Judge(old(seen), events[..i], now)
        invariant seen == old(seen) + Keys(accepted)
      {
        JudgeNext(old(seen), events, i, now);
        var e := events[i];
        if e.id != "" {
          var key := DedupeKey(e);
          if key in seen {
            duplicates := duplicates + [e.id];
          } else {
            KeysAppend(accepted, StoredEvent(e, now));
            seen := seen + {key};
            accepted := accepted + [StoredEvent(e, now)];
          }
        }
        i := i + 1;
      }
      assert events[..|events|] == events;
    }

    /** Writes what is new in a batch, in one append, or takes the index back when that fails. */
    method Append(events: seq<PlaybackEvent>, now: int)
        returns (ok: bool, accepted: seq<StoredEvent>, duplicates: seq<string>)
      modifies this, files`log, files`history
      ensures Verdict(accepted, duplicates) == Judge(old(seen), events, now)
      ensures accepted == [] ==>
        ok && files.log == old(files.log) && files.history == old(files.history) && seen == old(seen)
      ensures accepted != [] && ok ==>
        && files.log == AppendTo(old(files.log), DayOf(now), accepted)
        && files.history == old(files.history) + accepted
        && seen == old(seen) + Keys(accepted)
      ensures !ok ==>
        && accepted != [] && files.log == old(files.log) && files.history == old(files.history)
        && seen == old(seen)
    {
      accepted, duplicates := Sift(events, now);
      ok := true;
      if accepted != [] {
        ok := files.AppendFile(DayOf(now), accepted);
        if !ok {
          JudgeFacts(old(seen), events, now);
          Forget(accepted);
        }
      }
    }

    /** Log and index when the first `i` segments of the listing are done with. */
    ghost predicate SweptRaw(log: Log, before: set<string>, i: nat, cutoff: int)
      reads this`seen, files`log
    {
      i <= |log| && files.log == Remaining(log, i, cutoff) && seen == before - DueKeys(log[..i], cutoff)
    }

    /**
     * `sweep` with no hook: a launch whose totals failed to open runs it. False when an unlink failed, and
     * then log and index are as they were before that segment.
     */
    method SweepRaw(cutoff: int) returns (ok: bool, ghost stop: nat)
      requires Sorted(files.log)
      modifies this, files`log, files`gone
      ensures SweptRaw(old(files.log), old(seen), stop, cutoff)
      ensures if ok then stop == |old(files.log)|
        else stop < |old(files.log)| && SegmentEnd(old(files.log)[stop].day) <= cutoff
      ensures ok ==> files.log == NotDue(old(files.log), cutoff)
      ensures ok ==> seen == old(seen) - DueKeys(old(files.log), cutoff)
    {
      SweptNone(files.log, seen, cutoff);
      ok, stop := RawLoop(Days(files.log), cutoff, files.log, seen);
      SweptAll(old(files.log), cutoff);
    }

    method RawLoop(names: seq<int>, cutoff: int, ghost log: Log, ghost before: set<string>)
        returns (ok: bool, ghost stop: nat)
      requires Sorted(log) && names == Days(log) && |names| == |log| && SweptRaw(log, before, 0, cutoff)
      modifies this, files`log, files`gone
      ensures SweptRaw(log, before, stop, cutoff)
      ensures if ok then stop == |log| else stop < |log| && SegmentEnd(log[stop].day) <= cutoff
    {
      var i := 0;
      while i < |names|
        invariant SweptRaw(log, before, i, cutoff)
      {
        DayAt(log, i);
        ok := RawTurn(names[i], cutoff, log, before, i);
        if !ok {
          return false, i;
        }
        i := i + 1;
      }
      ok, stop := true, i;
    }

    method RawTurn(day: int, cutoff: int, ghost log: Log, ghost before: set<string>, ghost i: nat) returns (ok: bool)
      requires Sorted(log) && i < |log| && day == log[i].day && SweptRaw(log, before, i, cutoff)
      modifies this, files`log, files`gone
      ensures SweptRaw(log, before, if ok then i + 1 else i, cutoff)
      ensures !ok ==> SegmentEnd(day) <= cutoff
    {
      ok := true;
      DueKeysNext(log, i, cutoff);
      if SegmentEnd(day) <= cutoff {
        DueNext(log, i, cutoff);
        ok := RemoveRaw(day);
      } else {
        KeptNext(log, i, cutoff);
      }
    }

    method RemoveRaw(day: int) returns (ok: bool)
      modifies this, files`log, files`gone
      ensures ok ==> files.log == Unlink(old(files.log), day) && seen == old(seen) - Keys(EventsOf(old(files.log), day))
      ensures !ok ==> files.log == old(files.log) && seen == old(seen)
    {
      var expiring := EventsOf(files.log, day);
      ok := files.Remove(day);
      if ok {
        Forget(expiring);
      }
    }

    method Forget(es: seq<StoredEvent>)
      modifies this
      ensures seen == old(seen) - Keys(es)
    {
      var i := 0;
      while i < |es|
        invariant 0 <= i <= |es|
        invariant seen == old(seen) - Keys(es[..i])
      {
        assert es[..i + 1] == es[..i] + [es[i]];
        seen := seen - {DedupeKey(es[i].event)};
        i := i + 1;
      }
      assert es[..|es|] == es;
    }
  }

  /** What a finished sweep reports. */
  datatype SweepResult = SweepResult(segments: seq<int>, events: nat, retained: seq<int>)

  predicate Ascends(days: seq<int>) {
    forall i, j :: 0 <= i < j < |days| ==> days[i] < days[j]
  }

  lemma AscendsMore(days: seq<int>, day: int)
    requires Ascends(days) && forall d :: d in days ==> d < day
    ensures Ascends(days + [day])
  {
    assert forall i :: 0 <= i < |days| ==> days[i] in days;
  }

  /** Both lists are in the order of the listing, of which they have no more than the first names. */
  ghost predicate InListingOrder(removed: seq<int>, retained: seq<int>, names: seq<int>, i: nat) {
    && i <= |names| && Ascends(removed) && Ascends(retained)
    && (forall d :: d in removed ==> d in names[..i]) && forall d :: d in retained ==> d in names[..i]
  }

  lemma NextInOrder(log: Log, removed: seq<int>, retained: seq<int>, i: nat)
    requires Sorted(log) && i < |Days(log)| && InListingOrder(removed, retained, Days(log), i)
    ensures InListingOrder(removed, retained, Days(log), i + 1)
    ensures InListingOrder(removed + [Days(log)[i]], retained, Days(log), i + 1)
    ensures InListingOrder(removed, retained + [Days(log)[i]], Days(log), i + 1)
  {
    var names := Days(log);
    NameIsNew(log, i);
    AscendsMore(removed, names[i]);
    AscendsMore(retained, names[i]);
    assert names[..i + 1] == names[..i] + [names[i]];
  }

  /** What is reported as removed is what the log lost, with that many events, and nothing retained is among it. */
  ghost predicate Reports(r: SweepResult, before: Log, after: Log) {
    && after == Without(before, set d | d in r.segments)
    && (forall d :: d in r.retained ==> d !in r.segments)
    && |AllEvents(after)| + r.events == |AllEvents(before)|
  }

  lemma ReportsMore(r: SweepResult, before: Log, after: Log, day: int)
    requires Sorted(before) && Reports(r, before, after) && day in Days(before)
    requires day !in r.segments && day !in r.retained
    ensures Reports(r.(retained := r.retained + [day]), before, after)
    ensures EventsOf(after, day) == EventsOf(before, day)
    ensures Reports(SweepResult(r.segments + [day], r.events + |EventsOf(after, day)|, r.retained), before,
      Unlink(after, day))
  {
    var gone := set d | d in r.segments;
    WithoutOneMore(before, gone, day);
    assert (set d | d in r.segments + [day]) == gone + {day};
  }

  /** What becomes of one due segment. `Threw` is an unlink that failed, which ends the sweep. */
  datatype Expiry = Kept | Removed | Threw

  function AfterTmp(w: Sweeping): Sweeping
    requires w.Persisting? || w.SettlePersisting?
  {
    if w.SettlePersisting? then SettleRenaming else Renaming(w.day, w.events, w.todo, w.cutoff, w.removed)
  }

  function AfterRename(w: Sweeping): Sweeping
    requires w.Persisting? || w.SettlePersisting?
  {
    if w.SettlePersisting? then Idle else Unlinking(w.day, w.events, w.todo, w.cutoff, w.removed)
  }

  function AfterFailure(w: Sweeping): Sweeping
    requires w.Persisting? || w.SettlePersisting?
  {
    if w.SettlePersisting? then Idle else Scanning(w.todo, w.cutoff, w.removed)
  }

  lemma RecordStep(s: State, accepted: seq<StoredEvent>)
    requires s.host.Up? && s.host.unrecorded == [accepted]
    ensures Step(s, Record(0)) == Some(s.(host := s.host.(unrecorded := [],
      mem := s.host.mem.(rollup := CountAll(s.host.mem.rollup, accepted)))))
  {
    assert [accepted][..0] + [accepted][1..] == [];
  }

  lemma ForgetStep(s: State, w: Sweeping)
    requires s.host.Up? && w.Forgetting? && s.host.sweeping == w
    ensures Step(s, Action.Forget) == Some(s.(host := s.host.(
      mem := s.host.mem.(seen := s.host.mem.seen - Keys(w.events)),
      sweeping := Scanning(w.todo, w.cutoff, w.removed + {w.day}))))
  {
  }

  lemma TmpSteps(s: State, w: Sweeping)
    requires s.host.Up? && s.host.sweeping == w && (w.Persisting? || w.SettlePersisting?)
    ensures Step(s, WriteTmp)
      == Some(s.(disk := s.disk.(tmp := Snapshot(s.host.mem)), host := s.host.(sweeping := AfterTmp(w))))
    ensures Step(s, WriteTmpFailed) == Some(s.(disk := s.disk.(tmp := Corrupt),
      host := s.host.(sweeping := AfterFailure(w))))
  {
  }

  lemma RemoveSteps(s: State, w: Sweeping)
    requires s.host.Up? && s.host.sweeping == w && w.Unlinking?
    ensures Step(s, Retention.Action.Remove) == Some(s.(disk := s.disk.(log := Unlink(s.disk.log, w.day)),
      gone := s.gone + Keys(EventsOf(s.disk.log, w.day)),
      host := s.host.(sweeping := Forgetting(w.day, w.events, w.todo, w.cutoff, w.removed))))
    ensures Step(s, RemoveFailed) == Some(s.(host := s.host.(sweeping := Idle)))
  {
  }

  lemma RenameSteps(s: State, w: Sweeping)
    requires (w.Persisting? || w.SettlePersisting?) && s.host.Up? && s.host.sweeping == AfterTmp(w)
    ensures Step(s, Rename)
      == Some(s.(disk := s.disk.(baseline := s.disk.tmp, tmp := Missing), host := s.host.(sweeping := AfterRename(w))))
    ensures Step(s, RenameFailed) == Some(s.(host := s.host.(sweeping := AfterFailure(w))))
  {
  }

  /** The log without some days. */
  function Without(log: Log, gone: set<int>): Log {
    if log == [] then []
    else if log[0].day in gone then Without(log[1..], gone)
    else [log[0]] + Without(log[1..], gone)
  }

  lemma NameIsNew(log: Log, i: nat)
    requires Sorted(log) && i < |Days(log)|
    ensures Days(log)[i] in Days(log) && Days(log)[i] !in Days(log)[..i]
    ensures forall d :: d in Days(log)[..i] ==> d < Days(log)[i]
  {
    DaysAreListed(log);
  }

  /** What a sweep has to report after the first names, if these are the listing of a log. */
  ghost predicate SweptTo(log: Log, names: seq<int>, now: Log, r: SweepResult, i: nat) {
    Sorted(log) && names == Days(log) ==> Reports(r, log, now) && InListingOrder(r.segments, r.retained, names, i)
  }

  lemma SweptNext(log: Log, names: seq<int>, now: Log, r: SweepResult, i: nat)
    requires i < |names| && SweptTo(log, names, now, r, i)
    ensures var day := names[i];
      && SweptTo(log, names, now, r, i + 1)
      && SweptTo(log, names, now, r.(retained := r.retained + [day]), i + 1)
      && SweptTo(log, names, Unlink(now, day), SweepResult(r.segments + [day], r.events + |EventsOf(now, day)|,
        r.retained), i + 1)
  {
    if Sorted(log) && names == Days(log) {
      NameIsNew(log, i);
      ReportsMore(r, log, now, names[i]);
      NextInOrder(log, r.segments, r.retained, i);
    }
  }

  lemma {:induction false} WithoutNone(log: Log)
    ensures Without(log, {}) == log
  {
    if log != [] {
      WithoutNone(log[1..]);
    }
  }

  lemma {:induction false} WithoutDays(log: Log, gone: set<int>)
    ensures forall d :: d in Days(Without(log, gone)) <==> d in Days(log) && d !in gone
  {
    if log != [] {
      WithoutDays(log[1..], gone);
    }
  }

  lemma {:induction false} WithoutEqual(log: Log, gone: set<int>, day: int)
    requires day !in Days(log)
    ensures Without(log, gone + {day}) == Without(log, gone)
  {
    if log != [] {
      WithoutEqual(log[1..], gone, day);
    }
  }

  lemma {:induction false} WithoutOneMore(log: Log, gone: set<int>, day: int)
    requires Sorted(log) && day in Days(log) && day !in gone
    ensures Unlink(Without(log, gone), day) == Without(log, gone + {day})
    ensures EventsOf(Without(log, gone), day) == EventsOf(log, day)
    ensures |AllEvents(Without(log, gone + {day}))| + |EventsOf(log, day)| == |AllEvents(Without(log, gone))|
  {
    DaysAreListed(log);
    if log[0].day == day {
      assert day !in Days(log[1..]) by {
        DaysAreListed(log[1..]);
      }
      WithoutEqual(log[1..], gone, day);
    } else {
      WithoutOneMore(log[1..], gone, day);
    }
  }

  lemma ReportsNone(log: Log)
    ensures Reports(SweepResult([], 0, []), log, log)
  {
    WithoutNone(log);
    var none: seq<int> := [];
    assert (set d | d in none) == {};
  }

  class AggregateStore {
    const files: Files
    const events: EventStore
    var baseline: Rollup
    var foldedSegments: set<int>
    var rollup: Rollup

    constructor (events: EventStore)
      ensures this.events == events && files == events.files
      ensures baseline == map[] && foldedSegments == {} && rollup == map[]
    {
      this.events, this.files := events, events.files;
      baseline, foldedSegments, rollup := map[], {}, map[];
    }

    ghost predicate Valid() {
      files == events.files
    }

    /** The machine state the fields and files stand for. */
    ghost function View(appending: Appending, unrecorded: seq<seq<StoredEvent>>, sweeping: Sweeping): State
      reads this, files, events
    {
      State(files.OnDisk(),
            Up(Memory(events.seen, baseline, foldedSegments, rollup), appending, unrecorded, sweeping),
            files.clock, files.history, files.gone)
    }

    ghost function AtRest(): State
      reads this, files, events
    {
      View(Quiet, [], Idle)
    }

    method ReadBaseline()
      modifies this`baseline, this`foldedSegments
      ensures baseline == Recordings(files.baseline) && foldedSegments == Folded(files.baseline)
    {
      baseline, foldedSegments := map[], {};
      if files.baseline.Stored? {
        baseline := map u | u in files.baseline.recordings && u != "" :: files.baseline.recordings[u];
        foldedSegments := files.baseline.folded;
      }
    }

    /** Replays every segment the baseline has not absorbed over the baseline. */
    method DeriveRollup() returns (totals: Rollup)
      ensures totals == Derive(baseline, foldedSegments, files.log)
    {
      totals := baseline;
      var i := 0;
      assert files.log[0..] == files.log;
      while i < |files.log|
        invariant 0 <= i <= |files.log|
        invariant CountAll(totals, Live(files.log[i..], foldedSegments)) == Derive(baseline, foldedSegments, files.log)
      {
        var segment := files.log[i];
        var rest := files.log[i + 1..];
        assert files.log[i..][1..] == rest;
        if segment.day !in foldedSegments {
          CountAllConcat(totals, segment.events, Live(rest, foldedSegments));
          totals := CountEach(totals, segment.events);
        } else {
          assert [] + Live(rest, foldedSegments) == Live(rest, foldedSegments);
        }
        i := i + 1;
      }
    }

    static method CountEach(seed: Rollup, es: seq<StoredEvent>) returns (totals: Rollup)
      ensures totals == CountAll(seed, es)
    {
      totals := seed;
      var i := 0;
      while i < |es|
        invariant 0 <= i <= |es|
        invariant totals == CountAll(seed, es[..i])
      {
        assert es[..i + 1][..i] == es[..i];
        totals := Count(totals, es[i]);
        i := i + 1;
      }
      assert es[..|es|] == es;
    }

    /** The repair path: afterwards memory is what a fresh start would load. */
    method Rebuild()
      requires Valid()
      modifies this
      ensures baseline == Load(files.OnDisk()).baseline
      ensures foldedSegments == Load(files.OnDisk()).folded
      ensures rollup == DiskTotals(files.OnDisk())
    {
      ReadBaseline();
      rollup := DeriveRollup();
    }

    /** A launch: the index and the aggregates open over whatever the last process left. */
    method Open()
      requires Valid() && events.seen == {}
      modifies this, events
      ensures
        var down := State(files.OnDisk(), Down, files.clock, files.history, files.gone);
        Run(down, [Boot]) == Some(AtRest())
    {
      events.Open();
      Rebuild();
      ghost var down := State(files.OnDisk(), Down, files.clock, files.history, files.gone);
      RunExtend(down, [], Boot);
      assert [] + [Boot] == [Boot];
      assert {} + Keys(AllEvents(files.log)) == Keys(AllEvents(files.log));
    }

    /** What the ingest route does with a valid batch: append it, then record what was new. */
    method Ingest(batch: seq<PlaybackEvent>, now: int)
        returns (ok: bool, accepted: seq<StoredEvent>, duplicates: seq<string>, ghost run: seq<Action>)
      requires Valid() && now >= files.clock && NamesRecordings(batch)
      modifies this, events, files
      ensures Run(old(AtRest()), run) == Some(AtRest())
      ensures Verdict(accepted, duplicates) == Judge(old(events.seen), batch, now)
      ensures ok ==> rollup == CountAll(old(rollup), accepted) && files.history == old(files.history) + accepted
      ensures !ok ==> rollup == old(rollup) && files.history == old(files.history) && events.seen == old(events.seen)
    {
      ghost var start := AtRest();
      files.clock := now;
      run := [BeginAppend(batch, now)];
      RunExtend(start, [], run[0]);
      assert [] + run == run;
      JudgeFacts(events.seen, batch, now);
      ok, accepted, duplicates := events.Append(batch, now);
      if accepted == [] {
        assert files.history + accepted == files.history;
      } else if !ok {
        assert start.host.mem.seen + Keys(accepted) - Keys(accepted) == start.host.mem.seen;
        RunExtend(start, run, AppendFailed);
        run := run + [AppendFailed];
      } else {
        RunExtend(start, run, AppendWritten);
        run := run + [AppendWritten];
        assert [] + [accepted] == [accepted];
        run := RecordBatch(accepted, start, run);
      }
    }

    /** `record`: the new events go into the rollup. */
    method RecordBatch(accepted: seq<StoredEvent>, ghost start: State, ghost before: seq<Action>)
        returns (ghost run: seq<Action>)
      requires Run(start, before) == Some(View(Quiet, [accepted], Idle))
      modifies this`rollup
      ensures rollup == CountAll(old(rollup), accepted) && Run(start, run) == Some(AtRest())
    {
      RecordStep(View(Quiet, [accepted], Idle), accepted);
      rollup := CountEach(rollup, accepted);
      RunExtend(start, before, Record(0));
      run := before + [Record(0)];
    }

    /** Replaces the baseline file whole, through a temp file and a rename. */
    method WriteBaseline(ghost start: State, ghost before: seq<Action>, ghost w: Sweeping)
        returns (ok: bool, ghost run: seq<Action>)
      requires Valid() && (w.Persisting? || w.SettlePersisting?)
      requires Run(start, before) == Some(View(Quiet, [], w))
      modifies files`tmp, files`baseline
      ensures ok ==> files.baseline == Stored(foldedSegments, baseline)
      ensures !ok ==> files.baseline == old(files.baseline)
      ensures SweptOn(before, run)
      ensures Run(start, run) == Some(View(Quiet, [], if ok then AfterRename(w) else AfterFailure(w)))
    {
      ok, run := WriteTmpFile(start, before, w);
      if ok {
        ok, run := RenameTmpFile(start, run, w);
      }
    }

    method WriteTmpFile(ghost start: State, ghost before: seq<Action>, ghost w: Sweeping)
        returns (ok: bool, ghost run: seq<Action>)
      requires Valid() && (w.Persisting? || w.SettlePersisting?)
      requires Run(start, before) == Some(View(Quiet, [], w))
      modifies files`tmp
      ensures ok ==> files.tmp == Stored(foldedSegments, baseline)
      ensures SweptOn(before, run)
      ensures Run(start, run) == Some(View(Quiet, [], if ok then AfterTmp(w) else AfterFailure(w)))
    {
      TmpSteps(View(Quiet, [], w), w);
      ok := files.WriteTmp(Stored(foldedSegments, baseline));
      ghost var a := if ok then Retention.Action.WriteTmp else WriteTmpFailed;
      RunExtend(start, before, a);
      run := before + [a];
    }

    method RenameTmpFile(ghost start: State, ghost before: seq<Action>, ghost w: Sweeping)
        returns (ok: bool, ghost run: seq<Action>)
      requires Valid() && (w.Persisting? || w.SettlePersisting?)
      requires Run(start, before) == Some(View(Quiet, [], AfterTmp(w)))
      modifies files`tmp, files`baseline
      ensures files.baseline == if ok then old(files.tmp) else old(files.baseline)
      ensures SweptOn(before, run)
      ensures Run(start, run) == Some(View(Quiet, [], if ok then AfterRename(w) else AfterFailure(w)))
    {
      RenameSteps(View(Quiet, [], AfterTmp(w)), w);
      ok := files.RenameTmp();
      ghost var a := if ok then Rename else RenameFailed;
      RunExtend(start, before, a);
      run := before + [a];
    }

    /** The hook a sweep calls on a segment just before it is unlinked. False keeps the segment. */
    method OnSegment(day: int, expiring: seq<StoredEvent>, ghost start: State, ghost before: seq<Action>,
        ghost w: Sweeping)
        returns (ok: bool, ghost run: seq<Action>)
      requires Valid() && w.Scanning? && w.todo != [] && w.todo[0] == day && SegmentEnd(day) <= w.cutoff
      requires expiring == EventsOf(files.log, day)
      requires Run(start, before) == Some(View(Quiet, [], w))
      modifies this`baseline, this`foldedSegments, files`tmp, files`baseline
      ensures foldedSegments == old(foldedSegments) + {day} && SweptOn(before, run)
      ensures var rest := w.todo[1..];
        Run(start, run) == Some(View(Quiet, [],
          if ok then Unlinking(day, expiring, rest, w.cutoff, w.removed) else Scanning(rest, w.cutoff, w.removed)))
    {
      RunExtend(start, before, VisitSegment);
      run := before + [VisitSegment];
      if day in foldedSegments {
        return true, run;
      }
      baseline := CountEach(baseline, expiring);
      foldedSegments := foldedSegments + {day};
      ok, run := WriteBaseline(start, run, Persisting(day, expiring, w.todo[1..], w.cutoff, w.removed));
    }

    /** Unlinks a folded segment and forgets its ids. False when the unlink itself failed. */
    method RemoveSegment(day: int, expiring: seq<StoredEvent>, ghost start: State, ghost before: seq<Action>,
        ghost w: Sweeping)
        returns (ok: bool, ghost run: seq<Action>)
      requires Valid() && w.Unlinking? && w.day == day && w.events == expiring
      requires Run(start, before) == Some(View(Quiet, [], w))
      modifies files`log, files`gone, events
      ensures SweptOn(before, run) && files.log == if ok then Unlink(old(files.log), day) else old(files.log)
      ensures Run(start, run) == Some(View(Quiet, [], if ok then Scanning(w.todo, w.cutoff, w.removed + {day})
        else Idle))
    {
      ok, run := UnlinkFile(day, start, before, w);
      if ok {
        run := ForgetSegment(expiring, start, run, Forgetting(day, expiring, w.todo, w.cutoff, w.removed));
      }
    }

    method ForgetSegment(expiring: seq<StoredEvent>, ghost start: State, ghost before: seq<Action>, ghost w: Sweeping)
        returns (ghost run: seq<Action>)
      requires Valid() && w.Forgetting? && w.events == expiring && Run(start, before) == Some(View(Quiet, [], w))
      modifies events
      ensures SweptOn(before, run)
      ensures Run(start, run) == Some(View(Quiet, [], Scanning(w.todo, w.cutoff, w.removed + {w.day})))
    {
      ForgetStep(View(Quiet, [], w), w);
      RunExtend(start, before, Action.Forget);
      events.Forget(expiring);
      run := before + [Action.Forget];
    }

    method UnlinkFile(day: int, ghost start: State, ghost before: seq<Action>, ghost w: Sweeping)
        returns (ok: bool, ghost run: seq<Action>)
      requires Valid() && w.Unlinking? && w.day == day && Run(start, before) == Some(View(Quiet, [], w))
      modifies files`log, files`gone
      ensures SweptOn(before, run) && files.log == if ok then Unlink(old(files.log), day) else old(files.log)
      ensures Run(start, run) == Some(View(Quiet, [], if ok then Forgetting(day, w.events, w.todo, w.cutoff, w.removed)
        else Idle))
    {
      RemoveSteps(View(Quiet, [], w), w);
      ok := files.Remove(day);
      ghost var a := if ok then Retention.Action.Remove else RemoveFailed;
      RunExtend(start, before, a);
      run := before + [a];
    }

    /**
     * Retention. Each segment wholly past the cutoff is folded, persisted and only then unlinked,
     * and one whose baseline write failed is retained. `None` is a sweep that threw. However it ends,
     * the totals on disk are what they were, unless a due segment was folded and never saved before.
     */
    method Sweep(maxAge: nat, now: int) returns (result: Option<SweepResult>, ghost run: seq<Action>)
      requires Valid() && now >= files.clock
      modifies this, files, events
      ensures OneSweep(run, maxAge, now) && Run(old(AtRest()), run) == Some(AtRest())
      ensures files.history == old(files.history)
      ensures Inv(old(AtRest())) && SavedUpTo(old(AtRest()), now - maxAge) ==>
        Inv(AtRest()) && DiskTotals(files.OnDisk()) == old(DiskTotals(files.OnDisk()))
      ensures result.Some? ==>
        forall d :: d in result.value.segments + result.value.retained
          <==> d in Days(old(files.log)) && SegmentEnd(d) <= now - maxAge
      ensures result.Some? && Sorted(old(files.log)) ==>
        && Reports(result.value, old(files.log), files.log)
        && Ascends(result.value.segments) && Ascends(result.value.retained)
        && (forall d :: d in result.value.segments ==> d !in Days(files.log) && d !in Folded(files.baseline))
        && (forall d :: d in result.value.retained ==> d in Days(files.log))
    {
      ghost var start, log := AtRest(), files.log;
      var names := Days(files.log);
      files.clock := now;
      run := [BeginSweep(maxAge, now)];
      RunExtend(start, [], run[0]);
      assert [] + run == run;
      result, run := SweepListed(names, now - maxAge, start, run);
      if Inv(start) && SavedUpTo(start, now - maxAge) {
        CarefulSweepConserves(start, run, maxAge, now);
      }
      if result.Some? {
        WithoutDays(log, set d | d in result.value.segments);
      }
    }

    /** The sweep after its listing. */
    method SweepListed(names: seq<int>, cutoff: int, ghost start: State, ghost before: seq<Action>)
        returns (result: Option<SweepResult>, ghost run: seq<Action>)
      requires Valid() && Run(start, before) == Some(View(Quiet, [], Scanning(names, cutoff, {})))
      modifies this`baseline, this`foldedSegments, files`tmp, files`baseline, files`log, files`gone, events
      ensures SweptOn(before, run) && Run(start, run) == Some(AtRest())
      ensures result.Some? ==>
        forall d :: d in result.value.segments + result.value.retained <==> d in names && SegmentEnd(d) <= cutoff
      ensures result.Some? && Sorted(old(files.log)) && names == Days(old(files.log)) ==>
        && Reports(result.value, old(files.log), files.log)
        && Ascends(result.value.segments) && Ascends(result.value.retained)
      ensures result.Some? ==>
        forall d :: d in result.value.segments ==> d !in foldedSegments && d !in Folded(files.baseline)
    {
      result, run := SweepSegments(names, cutoff, start, before);
      if result.Some? {
        ghost var swept := run;
        var ok;
        ok, run := Settle(result.value.segments, cutoff, start, swept);
        result := if ok then result else None;
      }
    }

    /** The loop over the listed segments. */
    method SweepSegments(names: seq<int>, cutoff: int, ghost start: State, ghost before: seq<Action>)
        returns (swept: Option<SweepResult>, ghost run: seq<Action>)
      requires Valid() && Run(start, before) == Some(View(Quiet, [], Scanning(names, cutoff, {})))
      modifies this`baseline, this`foldedSegments, files`tmp, files`baseline, files`log, files`gone, events
      ensures SweptOn(before, run)
      ensures swept.None? ==> Run(start, run) == Some(AtRest())
      ensures swept.Some? ==>
        && Run(start, run) == Some(View(Quiet, [], Scanning([], cutoff, set d | d in swept.value.segments)))
        && forall d :: d in swept.value.segments + swept.value.retained <==> d in names && SegmentEnd(d) <= cutoff
      ensures swept.Some? ==> forall d :: d in swept.value.segments ==> d in foldedSegments
      ensures swept.Some? ==> SweptTo(old(files.log), names, files.log, swept.value, |names|)
    {
      ghost var log := files.log;
      ReportsNone(log);
      var removed, retained := [], [];
      var count: nat := 0;
      run := before;
      ghost var gone: set<int> := {};
      var i := 0;
      assert names[0..] == names;
      while i < |names|
        invariant 0 <= i <= |names| && Valid()
        invariant gone == set d | d in removed
        invariant SweptOn(before, run) && gone <= foldedSegments
        invariant Run(start, run) == Some(View(Quiet, [], Scanning(names[i..], cutoff, gone)))
        invariant forall d :: d in removed + retained <==> d in names[..i] && SegmentEnd(d) <= cutoff
        invariant SweptTo(log, names, files.log, SweepResult(removed, count, retained), i)
      {
        var day := names[i];
        assert names[i..][1..] == names[i + 1..] && names[..i + 1] == names[..i] + [day];
        ghost var w := Scanning(names[i..], cutoff, gone);
        SweptNext(log, names, files.log, SweepResult(removed, count, retained), i);
        i := i + 1;
        if SegmentEnd(day) > cutoff {
          run := Skip(start, run, w);
          continue;
        }
        var expiring := EventsOf(files.log, day);
        var expiry: Expiry;
        expiry, run := Expire(day, expiring, start, run, w);
        if expiry == Threw {
          return None, run;
        }
        if expiry == Kept {
          retained := retained + [day];
        } else {
          removed, count := removed + [day], count + |expiring|;
          gone := gone + {day};
        }
      }
      assert names[..|names|] == names && names[|names|..] == [];
      swept := Some(SweepResult(removed, count, retained));
    }

    /** A segment that is not due. */
    ghost method Skip(start: State, before: seq<Action>, w: Sweeping) returns (run: seq<Action>)
      requires w.Scanning? && w.todo != [] && SegmentEnd(w.todo[0]) > w.cutoff
      requires Run(start, before) == Some(View(Quiet, [], w))
      ensures SweptOn(before, run)
      ensures Run(start, run) == Some(View(Quiet, [], Scanning(w.todo[1..], w.cutoff, w.removed)))
    {
      RunExtend(start, before, VisitSegment);
      run := before + [VisitSegment];
    }

    /** A due segment: folded and persisted, then unlinked, unless the one or the other failed. */
    method Expire(day: int, expiring: seq<StoredEvent>, ghost start: State, ghost before: seq<Action>,
        ghost w: Sweeping)
        returns (expiry: Expiry, ghost run: seq<Action>)
      requires Valid() && w.Scanning? && w.todo != [] && w.todo[0] == day && SegmentEnd(day) <= w.cutoff
      requires expiring == EventsOf(files.log, day)
      requires Run(start, before) == Some(View(Quiet, [], w))
      modifies this`baseline, this`foldedSegments, files`tmp, files`baseline, files`log, files`gone, events
      ensures SweptOn(before, run) && old(foldedSegments) <= foldedSegments
      ensures expiry == Removed ==> day in foldedSegments
      ensures files.log == if expiry == Removed then Unlink(old(files.log), day) else old(files.log)
      ensures Run(start, run) == Some(View(Quiet, [],
        if expiry == Threw then Idle
        else Scanning(w.todo[1..], w.cutoff, if expiry == Removed then w.removed + {day} else w.removed)))
    {
      var kept;
      kept, run := OnSegment(day, expiring, start, before, w);
      if !kept {
        return Kept, run;
      }
      kept, run := RemoveSegment(day, expiring, start, run, Unlinking(day, expiring, w.todo[1..], w.cutoff, w.removed));
      expiry := if kept then Removed else Threw;
    }

    /** After the loop: the removed segments need no mark in the baseline any more. */
    method Settle(removed: seq<int>, cutoff: int, ghost start: State, ghost before: seq<Action>)
        returns (ok: bool, ghost run: seq<Action>)
      requires Valid() && Run(start, before) == Some(View(Quiet, [], Scanning([], cutoff, set d | d in removed)))
      modifies this`foldedSegments, files`tmp, files`baseline
      ensures SweptOn(before, run) && Run(start, run) == Some(AtRest())
      ensures foldedSegments == old(foldedSegments) - set d | d in removed
      ensures ok && (exists d :: d in removed && d in old(foldedSegments)) ==>
        files.baseline == Stored(foldedSegments, baseline)
    {
      ok := true;
      RunExtend(start, before, VisitSegment);
      run := before + [VisitSegment];
      ghost var gone := set d | d in removed;
      var settled := set d | d in removed && d in foldedSegments;
      assert settled == gone * foldedSegments;
      assert foldedSegments - settled == foldedSegments - gone;
      if settled != {} {
        foldedSegments := foldedSegments - settled;
        ok, run := WriteBaseline(start, run, SettlePersisting);
      }
    }
  }
}

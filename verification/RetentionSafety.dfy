/**
 * What every run of the retention machine keeps: the disk always accounts for each
 * event that ever reached it, exactly once, whatever is interrupted.
 */
module RetentionSafety {
  import opened Wrappers
  import opened PlayTotals
  import opened EventLog
  import opened Retention

  function History(s: State): Rollup {
    CountAll(map[], s.history)
  }

  /**
   * Nothing is folded in memory that the disk does not know, for a segment still there.
   * It holds at launch, and for as long as no baseline write has failed.
   */
  ghost predicate Saved(s: State) {
    s.host.Up? ==> forall d :: d in s.host.mem.folded && d in Days(s.disk.log) ==> d in Folded(s.disk.baseline)
  }

  /** A segment that memory has folded, the baseline on disk does not name, and that holds events. */
  ghost predicate Unsaved(s: State, day: int)
    requires s.host.Up?
  {
    day in s.host.mem.folded && day !in Folded(s.disk.baseline) && EventsOf(s.disk.log, day) != []
  }

  /** No segment a sweep with this cutoff can reach is unsaved. */
  ghost predicate SavedUpTo(s: State, cutoff: int) {
    s.host.Up? ==> forall d :: d in Days(s.disk.log) && SegmentEnd(d) <= cutoff ==> !Unsaved(s, d)
  }

  /** What a caller of `sweep` has to respect: unsaved folds, and an append older than the retention. */
  ghost predicate Careful(s: State, a: Action) {
    a.BeginSweep? && s.host.Up? ==>
      && SavedUpTo(s, a.now - a.maxAge)
      && (s.host.appending.Writing? ==> SegmentEnd(s.host.appending.day) > a.now - a.maxAge)
  }

  ghost predicate CarefulRun(s: State, actions: seq<Action>) {
    forall i :: 0 <= i < |actions| ==>
      var before := Run(s, actions[..i]);
      before.Some? ==> Careful(before.value, actions[i])
  }

  ghost predicate NamesRecording(h: StoredEvent) {
    h.event.recordingUrl != ""
  }

  ghost predicate DiskInv(s: State) {
    && Sorted(s.disk.log)
    && DistinctKeys(AllEvents(s.disk.log))
    && !s.disk.baseline.Corrupt?
    && (s.disk.baseline.Stored? ==> "" !in s.disk.baseline.recordings)
    && DiskTotals(s.disk) == History(s)
    && (forall h :: h in s.history ==> NamesRecording(h))
    && (forall d :: d in Folded(s.disk.baseline) ==> SegmentEnd(d) <= s.clock)
    && Keys(s.history) == Keys(AllEvents(s.disk.log)) + s.gone
  }

  /** The keys the index holds beyond the log: an append not yet written, a segment not yet forgotten. */
  function PendingKeys(h: Host): set<string>
    requires h.Up?
  {
    (if h.appending.Writing? then Keys(h.appending.accepted) else {})
    + (if h.sweeping.Forgetting? then Keys(h.sweeping.events) else {})
  }

  ghost predicate MemInv(s: State) {
    s.host.Up? ==>
      var h, log := s.host, s.disk.log;
      && Derive(h.mem.baseline, h.mem.folded, log) == History(s)
      && "" !in h.mem.baseline
      && (forall d :: d in h.mem.folded ==> SegmentEnd(d) <= s.clock)
      && CountAll(h.mem.rollup, Flatten(h.unrecorded)) == History(s)
      && h.mem.seen == Keys(AllEvents(log)) + PendingKeys(h)
  }

  ghost predicate AppendInv(s: State) {
    s.host.Up? && s.host.appending.Writing? ==>
      var h, acc, day := s.host, s.host.appending.accepted, s.host.appending.day;
      && DistinctKeys(acc)
      && Keys(acc) !! Keys(AllEvents(s.disk.log))
      && (h.sweeping.Forgetting? ==> Keys(acc) !! Keys(h.sweeping.events))
      && (forall e :: e in acc ==> NamesRecording(e))
      && day !in h.mem.folded && day !in Folded(s.disk.baseline)
      && (InLoop(h.sweeping) ==> SegmentEnd(day) > h.sweeping.cutoff)
  }

  predicate InLoop(w: Sweeping) {
    !w.Idle? && !w.SettlePersisting? && !w.SettleRenaming?
  }

  /** One segment is in hand. */
  predicate InHand(w: Sweeping) {
    InLoop(w) && !w.Scanning?
  }

  /** The segments still listed are distinct, on disk, and none that is due is unsaved. */
  ghost predicate TodoInv(s: State) {
    s.host.Up? && InLoop(s.host.sweeping) ==>
      var w := s.host.sweeping;
      && w.cutoff <= s.clock
      && (forall i, j :: 0 <= i < j < |w.todo| ==> w.todo[i] != w.todo[j])
      && (forall d :: d in w.todo ==> d in Days(s.disk.log) && (SegmentEnd(d) <= w.cutoff ==> !Unsaved(s, d)))
      && (forall d :: d in w.removed ==> d !in Days(s.disk.log) && SegmentEnd(d) <= w.cutoff)
  }

  /** The segment in hand, and the temp file that waits for its rename. */
  ghost predicate HandInv(s: State) {
    s.host.Up? ==>
      var w, m, log := s.host.sweeping, s.host.mem, s.disk.log;
      && (InHand(w) ==> w.day !in w.todo && SegmentEnd(w.day) <= w.cutoff)
      && (w.Persisting? || w.Renaming? || w.Unlinking? ==> w.day in m.folded && w.events == EventsOf(log, w.day))
      && (w.Renaming? || w.SettleRenaming? ==> s.disk.tmp == Snapshot(m))
      && (w.Unlinking? ==> w.day in Folded(s.disk.baseline) || w.events == [])
      && (w.Forgetting? ==> w.day !in Days(log) && Keys(w.events) <= s.gone && Keys(w.events) !! Keys(AllEvents(log)))
  }

  ghost predicate SweepInv(s: State) {
    TodoInv(s) && HandInv(s)
  }

  ghost predicate Inv(s: State) {
    DiskInv(s) && MemInv(s) && AppendInv(s) && SweepInv(s)
  }

  /** Moving a segment's events from the log into the baseline leaves the derived totals alone. */
  lemma FoldKeepsTotals(baseline: Rollup, folded: set<int>, log: Log, day: int)
    requires Sorted(log) && day !in folded
    ensures Derive(CountAll(baseline, EventsOf(log, day)), folded + {day}, log) == Derive(baseline, folded, log)
  {
    var x, y := SkipSplits(log, folded, day);
    CountAllHoist(baseline, x, EventsOf(log, day), y);
  }

  lemma AppendAddsTotals(baseline: Rollup, folded: set<int>, log: Log, day: int, es: seq<StoredEvent>)
    requires day !in folded
    ensures Derive(baseline, folded, AppendTo(log, day, es)) == CountAll(Derive(baseline, folded, log), es)
  {
    var x, y := AppendSplits(log, day, es, folded);
    CountAllHoist(baseline, x, es, y);
  }

  lemma UnlinkKeepsTotals(baseline: Rollup, folded: set<int>, log: Log, day: int)
    requires Sorted(log) && day in folded
    ensures Derive(baseline, folded, Unlink(log, day)) == Derive(baseline, folded, log)
  {
    UnlinkIsSkip(log, folded, day);
    assert folded + {day} == folded;
  }

  lemma UnlinkEmptyKeepsTotals(baseline: Rollup, folded: set<int>, log: Log, day: int)
    requires Sorted(log) && EventsOf(log, day) == []
    ensures Derive(baseline, folded, Unlink(log, day)) == Derive(baseline, folded, log)
  {
    if day in folded {
      UnlinkKeepsTotals(baseline, folded, log, day);
    } else {
      UnlinkIsSkip(log, folded, day);
      var x, y := SkipSplits(log, folded, day);
      assert x + [] + y == x + y;
    }
  }

  lemma {:induction false} EventsOfUnlink(log: Log, day: int, other: int)
    requires other != day
    ensures EventsOf(Unlink(log, day), other) == EventsOf(log, other)
  {
    if log != [] && log[0].day != day {
      EventsOfUnlink(log[1..], day, other);
    }
  }

  lemma {:induction false} FlattenAppend(batches: seq<seq<StoredEvent>>, b: seq<StoredEvent>)
    ensures Flatten(batches + [b]) == Flatten(batches) + b
  {
    if batches == [] {
      assert batches + [b] == [b];
      assert Flatten([b]) == b + Flatten([]);
    } else {
      assert (batches + [b])[1..] == batches[1..] + [b];
      FlattenAppend(batches[1..], b);
    }
  }

  lemma {:induction false} FlattenTake(batches: seq<seq<StoredEvent>>, i: nat)
      returns (x: seq<StoredEvent>, y: seq<StoredEvent>)
    requires i < |batches|
    ensures Flatten(batches) == x + batches[i] + y
    ensures Flatten(batches[..i] + batches[i + 1..]) == x + y
  {
    if i == 0 {
      x, y := [], Flatten(batches[1..]);
      assert batches[..0] + batches[1..] == batches[1..];
    } else {
      x, y := FlattenTake(batches[1..], i - 1);
      x := batches[0] + x;
      var rest := batches[..i] + batches[i + 1..];
      assert rest[1..] == batches[1..][..i - 1] + batches[1..][i..];
    }
  }

  lemma {:induction false} EventsOfAppend(log: Log, day: int, es: seq<StoredEvent>, other: int)
    requires other != day
    ensures EventsOf(AppendTo(log, day, es), other) == EventsOf(log, other)
  {
    if log != [] && log[0].day < day {
      EventsOfAppend(log[1..], day, es, other);
    }
  }

  /** Writing accepted events keeps keys distinct, and names them in the log's keys. */
  lemma AppendKeys(log: Log, day: int, es: seq<StoredEvent>)
    requires Sorted(log) && DistinctKeys(AllEvents(log)) && DistinctKeys(es)
    requires Keys(es) !! Keys(AllEvents(log))
    ensures Sorted(AppendTo(log, day, es)) && DistinctKeys(AllEvents(AppendTo(log, day, es)))
    ensures Keys(AllEvents(AppendTo(log, day, es))) == Keys(AllEvents(log)) + Keys(es)
  {
    AppendSorted(log, day, es);
    var x, y := AppendSplits(log, day, es, {});
    DistinctInsert(x, es, y);
  }

  lemma UnlinkKeys(log: Log, day: int)
    requires Sorted(log) && DistinctKeys(AllEvents(log))
    ensures Sorted(Unlink(log, day)) && DistinctKeys(AllEvents(Unlink(log, day)))
    ensures Keys(AllEvents(log)) == Keys(AllEvents(Unlink(log, day))) + Keys(EventsOf(log, day))
    ensures Keys(EventsOf(log, day)) !! Keys(AllEvents(Unlink(log, day)))
  {
    UnlinkSorted(log, day);
    UnlinkIsSkip(log, {}, day);
    var x, y := SkipSplits(log, {}, day);
    DistinctRemove(x, EventsOf(log, day), y);
  }

  lemma HistoryGrows(s: State, es: seq<StoredEvent>)
    ensures CountAll(map[], s.history + es) == CountAll(History(s), es)
    ensures Keys(s.history + es) == Keys(s.history) + Keys(es)
  {
    CountAllConcat(map[], s.history, es);
    KeysConcat(s.history, es);
  }

  /** A step that leaves the durable facts alone keeps what the disk promises. */
  lemma DiskFrame(s: State, t: State)
    requires DiskInv(s)
    requires t.disk.log == s.disk.log && t.disk.baseline == s.disk.baseline
    requires t.history == s.history && t.gone == s.gone && t.clock >= s.clock
    ensures DiskInv(t)
  {
  }

  lemma MemFrame(s: State, t: State)
    requires MemInv(s) && s.host.Up? && t.host.Up?
    requires t.disk.log == s.disk.log && t.history == s.history && t.clock >= s.clock
    requires t.host.mem.(seen := {}) == s.host.mem.(seen := {}) && t.host.unrecorded == s.host.unrecorded
    requires t.host.mem.seen == Keys(AllEvents(s.disk.log)) + PendingKeys(t.host)
    ensures MemInv(t)
  {
  }

  /** Between actions of the sweep's loop that touch neither the log nor what is folded. */
  lemma AppendFrame(s: State, t: State)
    requires AppendInv(s) && s.host.Up? && t.host.Up?
    requires t.host.appending == s.host.appending && t.host.mem.folded == s.host.mem.folded
    requires t.disk.log == s.disk.log && t.disk.baseline == s.disk.baseline
    requires InLoop(t.host.sweeping) ==> InLoop(s.host.sweeping) && t.host.sweeping.cutoff == s.host.sweeping.cutoff
    requires t.host.sweeping.Forgetting? ==>
      s.host.sweeping.Forgetting? && t.host.sweeping.events == s.host.sweeping.events
    ensures AppendInv(t)
  {
  }

  lemma SweepFrame(s: State, t: State)
    requires SweepInv(s) && s.host.Up? && t.host.Up? && t.clock >= s.clock
    requires t.host.sweeping == s.host.sweeping && t.disk == s.disk && t.gone == s.gone
    requires t.host.mem.folded == s.host.mem.folded && t.host.mem.baseline == s.host.mem.baseline
    ensures SweepInv(t)
  {
  }

  lemma InitialInv()
    ensures Inv(Initial)
  {
  }

  lemma BootInv(s: State, t: State)
    requires Inv(s) && Step(s, Boot) == Some(t)
    ensures Inv(t) && Saved(t)
  {
  }

  /** What the disk gains from an append, or from the part of it that a crash let through. */
  lemma WrittenDisk(s: State, t: State, kept: seq<StoredEvent>)
    requires Inv(s) && s.host.Up? && s.host.appending.Writing?
    requires kept <= s.host.appending.accepted
    requires t.disk.baseline == s.disk.baseline && t.clock == s.clock && t.gone == s.gone
    requires t.disk.log == AppendTo(s.disk.log, s.host.appending.day, kept)
    requires t.history == s.history + kept
    ensures DiskInv(t)
    ensures Keys(AllEvents(t.disk.log)) == Keys(AllEvents(s.disk.log)) + Keys(kept)
    ensures History(t) == CountAll(History(s), kept)
  {
    var acc := s.host.appending.accepted;
    assert DistinctKeys(kept);
    assert Keys(kept) <= Keys(acc);
    AppendKeys(s.disk.log, s.host.appending.day, kept);
    AppendAddsTotals(Recordings(s.disk.baseline), Folded(s.disk.baseline), s.disk.log, s.host.appending.day, kept);
    HistoryGrows(s, kept);
  }

  lemma CrashInv(s: State, t: State, kept: nat, torn: bool)
    requires Inv(s) && Step(s, Crash(kept, torn)) == Some(t)
    ensures Inv(t)
  {
    var h := s.host;
    var lines := if h.appending.Writing? && kept <= |h.appending.accepted| then h.appending.accepted[..kept] else [];
    if lines == [] {
      assert s.history + lines == s.history;
    } else {
      WrittenDisk(s, t, lines);
    }
  }

  lemma BegunAppend(s: State, t: State, accepted: seq<StoredEvent>, now: int)
    requires Inv(s) && s.host.Up? && t.host.Up? && now >= s.clock
    requires DistinctKeys(accepted) && Keys(accepted) !! s.host.mem.seen
    requires forall e :: e in accepted ==> NamesRecording(e)
    requires t.disk == s.disk && t.host.mem.folded == s.host.mem.folded && t.host.sweeping == s.host.sweeping
    requires t.host.appending == Writing(accepted, DayOf(now))
    ensures AppendInv(t)
  {
    assert SegmentEnd(DayOf(now)) > now;
  }

  lemma BeginAppendInv(s: State, t: State, batch: seq<PlaybackEvent>, now: int)
    requires Inv(s) && Step(s, BeginAppend(batch, now)) == Some(t)
    ensures Inv(t)
  {
    DiskFrame(s, t);
    var accepted := Judge(s.host.mem.seen, batch, now).accepted;
    JudgeFacts(s.host.mem.seen, batch, now);
    SweepFrame(s, t);
    if accepted == [] {
      MemFrame(s, t);
      AppendFrame(s, t);
    } else {
      assert PendingKeys(t.host) == PendingKeys(s.host) + Keys(accepted);
      MemFrame(s, t);
      BegunAppend(s, t, accepted, now);
    }
  }

  lemma AppendWrittenMem(s: State, t: State)
    requires Inv(s) && Step(s, AppendWritten) == Some(t)
    ensures DiskInv(t) && MemInv(t)
  {
    var h, acc, day := s.host, s.host.appending.accepted, s.host.appending.day;
    WrittenDisk(s, t, acc);
    AppendAddsTotals(h.mem.baseline, h.mem.folded, s.disk.log, day, acc);
    FlattenAppend(h.unrecorded, acc);
    CountAllConcat(h.mem.rollup, Flatten(h.unrecorded), acc);
  }

  lemma AppendWrittenTodo(s: State, t: State)
    requires AppendInv(s) && TodoInv(s) && Sorted(s.disk.log) && Step(s, AppendWritten) == Some(t)
    ensures TodoInv(t)
  {
    var w, acc, day := s.host.sweeping, s.host.appending.accepted, s.host.appending.day;
    AppendSorted(s.disk.log, day, acc);
    if InLoop(w) {
      forall d | d in w.todo && SegmentEnd(d) <= w.cutoff
        ensures !Unsaved(t, d)
      {
        EventsOfAppend(s.disk.log, day, acc, d);
        assert !Unsaved(s, d);
      }
    }
  }

  lemma AppendWrittenHand(s: State, t: State)
    requires Inv(s) && Step(s, AppendWritten) == Some(t)
    ensures HandInv(t)
  {
    var w, acc, day := s.host.sweeping, s.host.appending.accepted, s.host.appending.day;
    WrittenDisk(s, t, acc);
    AppendSorted(s.disk.log, day, acc);
    if InHand(w) {
      EventsOfAppend(s.disk.log, day, acc, w.day);
    }
  }

  lemma AppendWrittenInv(s: State, t: State)
    requires Inv(s) && Step(s, AppendWritten) == Some(t)
    ensures Inv(t)
  {
    AppendWrittenMem(s, t);
    AppendWrittenTodo(s, t);
    AppendWrittenHand(s, t);
    AppendWrittenAppend(s, t);
  }

  lemma AppendWrittenAppend(s: State, t: State)
    requires Step(s, AppendWritten) == Some(t)
    ensures AppendInv(t)
  {
  }

  lemma AppendFailedInv(s: State, t: State)
    requires Inv(s) && Step(s, AppendFailed) == Some(t)
    ensures Inv(t)
  {
    DiskFrame(s, t);
    assert PendingKeys(t.host) == PendingKeys(s.host) - Keys(s.host.appending.accepted);
    MemFrame(s, t);
    SweepFrame(s, t);
  }

  lemma RecordingIsCounting(rollup: Rollup, batches: seq<seq<StoredEvent>>, i: nat)
    requires i < |batches|
    ensures CountAll(CountAll(rollup, batches[i]), Flatten(batches[..i] + batches[i + 1..]))
      == CountAll(rollup, Flatten(batches))
  {
    var x, y := FlattenTake(batches, i);
    CountAllHoist(rollup, x, batches[i], y);
  }

  lemma RecordInv(s: State, t: State, i: nat)
    requires Inv(s) && Step(s, Record(i)) == Some(t)
    ensures Inv(t)
  {
    RecordingIsCounting(s.host.mem.rollup, s.host.unrecorded, i);
    DiskFrame(s, t);
    AppendFrame(s, t);
    SweepFrame(s, t);
  }

  lemma BeginSweepInv(s: State, t: State, maxAge: nat, now: int)
    requires Inv(s) && Careful(s, BeginSweep(maxAge, now)) && Step(s, BeginSweep(maxAge, now)) == Some(t)
    ensures Inv(t)
  {
    DaysAreListed(s.disk.log);
    DiskFrame(s, t);
    MemFrame(s, t);
  }

  lemma VisitInv(s: State, t: State)
    requires Inv(s) && Step(s, VisitSegment) == Some(t)
    ensures Inv(t)
  {
    var w := s.host.sweeping;
    if w.todo == [] {
      VisitEndInv(s, t);
    } else if SegmentEnd(w.todo[0]) <= w.cutoff && w.todo[0] !in s.host.mem.folded {
      VisitFoldInv(s, t);
    } else {
      VisitMoveInv(s, t);
    }
  }

  lemma VisitEndMem(s: State, t: State)
    requires Inv(s) && Step(s, VisitSegment) == Some(t) && s.host.sweeping.todo == []
    ensures MemInv(t)
  {
    var m, w, log := s.host.mem, s.host.sweeping, s.disk.log;
    DaysAreListed(log);
    SkipAbsent(log, m.folded - w.removed, m.folded * w.removed);
    assert m.folded - w.removed + m.folded * w.removed == m.folded;
  }

  lemma VisitEndInv(s: State, t: State)
    requires Inv(s) && Step(s, VisitSegment) == Some(t) && s.host.sweeping.todo == []
    ensures Inv(t)
  {
    DiskFrame(s, t);
    VisitEndMem(s, t);
  }

  lemma VisitMoveSweep(s: State, t: State)
    requires SweepInv(s) && Step(s, VisitSegment) == Some(t) && s.host.sweeping.todo != []
    requires SegmentEnd(s.host.sweeping.todo[0]) > s.host.sweeping.cutoff
      || s.host.sweeping.todo[0] in s.host.mem.folded
    ensures SweepInv(t)
  {
    var w := s.host.sweeping;
    assert w.todo[0] !in w.todo[1..];
    assert SegmentEnd(w.todo[0]) <= w.cutoff ==> !Unsaved(s, w.todo[0]);
    forall d | d in w.todo[1..] && SegmentEnd(d) <= w.cutoff
      ensures !Unsaved(t, d)
    {
      assert !Unsaved(s, d);
    }
  }

  lemma VisitMoveInv(s: State, t: State)
    requires Inv(s) && Step(s, VisitSegment) == Some(t) && s.host.sweeping.todo != []
    requires SegmentEnd(s.host.sweeping.todo[0]) > s.host.sweeping.cutoff
      || s.host.sweeping.todo[0] in s.host.mem.folded
    ensures Inv(t)
  {
    DiskFrame(s, t);
    MemFrame(s, t);
    AppendFrame(s, t);
    VisitMoveSweep(s, t);
  }

  lemma VisitFoldMem(s: State, t: State)
    requires Inv(s) && Step(s, VisitSegment) == Some(t) && s.host.sweeping.todo != []
    requires SegmentEnd(s.host.sweeping.todo[0]) <= s.host.sweeping.cutoff
    requires s.host.sweeping.todo[0] !in s.host.mem.folded
    ensures MemInv(t)
  {
    var m, log, day := s.host.mem, s.disk.log, s.host.sweeping.todo[0];
    FoldKeepsTotals(m.baseline, m.folded, log, day);
    CountAllMeaning(m.baseline, EventsOf(log, day), "");
    NamelessNeverPlayed(s, day);
  }

  lemma VisitFoldInv(s: State, t: State)
    requires Inv(s) && Step(s, VisitSegment) == Some(t) && s.host.sweeping.todo != []
    requires SegmentEnd(s.host.sweeping.todo[0]) <= s.host.sweeping.cutoff
    requires s.host.sweeping.todo[0] !in s.host.mem.folded
    ensures Inv(t)
  {
    var m, w, log := s.host.mem, s.host.sweeping, s.disk.log;
    var day := w.todo[0];
    assert day !in w.todo[1..];
    DiskFrame(s, t);
    VisitFoldMem(s, t);
  }

  /** No event on disk lacks a recording, since each one is in the history's keys and totals. */
  lemma NamelessNeverPlayed(s: State, day: int)
    requires Inv(s) && s.host.Up? && day !in s.host.mem.folded
    ensures Plays(EventsOf(s.disk.log, day), "") == 0
  {
    var m, log := s.host.mem, s.disk.log;
    var x, y := SkipSplits(log, m.folded, day);
    var es := EventsOf(log, day);
    CountAllMeaning(m.baseline, x + es + y, "");
    CountAllMeaning(map[], s.history, "");
    NamedNeverNameless(s.history);
    PlaysConcat(x + es, y, "");
    PlaysConcat(x, es, "");
  }

  lemma {:induction false} NamedNeverNameless(es: seq<StoredEvent>)
    requires forall h :: h in es ==> NamesRecording(h)
    ensures Plays(es, "") == 0
  {
    if es != [] {
      assert NamesRecording(es[0]);
      NamedNeverNameless(es[1..]);
    }
  }

  lemma WriteTmpInv(s: State, t: State)
    requires Inv(s) && Step(s, WriteTmp) == Some(t)
    ensures Inv(t)
  {
    DiskFrame(s, t);
    MemFrame(s, t);
    AppendFrame(s, t);
  }

  lemma WriteTmpFailedInv(s: State, t: State)
    requires Inv(s) && Step(s, WriteTmpFailed) == Some(t)
    ensures Inv(t)
  {
    DiskFrame(s, t);
    MemFrame(s, t);
    AppendFrame(s, t);
  }

  lemma RenameFailedInv(s: State, t: State)
    requires Inv(s) && Step(s, RenameFailed) == Some(t)
    ensures Inv(t)
  {
    DiskFrame(s, t);
    MemFrame(s, t);
    AppendFrame(s, t);
  }

  lemma RemoveFailedInv(s: State, t: State)
    requires Inv(s) && Step(s, RemoveFailed) == Some(t)
    ensures Inv(t)
  {
    DiskFrame(s, t);
    MemFrame(s, t);
    AppendFrame(s, t);
  }

  /** The renamed file holds what memory holds, so the disk now derives what memory does. */
  lemma RenameDisk(s: State, t: State)
    requires Inv(s) && s.host.Up?
    requires t == s.(disk := s.disk.(baseline := Snapshot(s.host.mem), tmp := Missing), host := t.host)
    ensures DiskInv(t)
  {
    assert Recordings(Snapshot(s.host.mem)) == s.host.mem.baseline;
  }

  lemma RenameInv(s: State, t: State)
    requires Inv(s) && Step(s, Rename) == Some(t)
    ensures Inv(t)
  {
    RenameDisk(s, t);
    MemFrame(s, t);
    assert AppendInv(t);
  }

  lemma RemoveTotals(s: State, t: State)
    requires Inv(s) && Step(s, Remove) == Some(t)
    ensures DiskTotals(t.disk) == DiskTotals(s.disk)
    ensures Derive(s.host.mem.baseline, s.host.mem.folded, t.disk.log) == History(s)
  {
    var m, w, log := s.host.mem, s.host.sweeping, s.disk.log;
    if w.day in Folded(s.disk.baseline) {
      UnlinkKeepsTotals(Recordings(s.disk.baseline), Folded(s.disk.baseline), log, w.day);
    } else {
      UnlinkEmptyKeepsTotals(Recordings(s.disk.baseline), Folded(s.disk.baseline), log, w.day);
    }
    UnlinkKeepsTotals(m.baseline, m.folded, log, w.day);
  }

  lemma RemoveTodo(s: State, t: State)
    requires TodoInv(s) && HandInv(s) && Sorted(s.disk.log) && Step(s, Remove) == Some(t)
    ensures TodoInv(t)
  {
    var w, log := s.host.sweeping, s.disk.log;
    UnlinkSorted(log, w.day);
    forall d | d in w.todo && SegmentEnd(d) <= w.cutoff
      ensures !Unsaved(t, d)
    {
      EventsOfUnlink(log, w.day, d);
      assert !Unsaved(s, d);
    }
  }

  lemma RemoveHand(s: State, t: State)
    requires Inv(s) && Step(s, Remove) == Some(t)
    ensures HandInv(t)
  {
    UnlinkKeys(s.disk.log, s.host.sweeping.day);
    UnlinkSorted(s.disk.log, s.host.sweeping.day);
  }

  lemma RemoveDisk(s: State, t: State)
    requires DiskInv(s) && Step(s, Remove) == Some(t) && DiskTotals(t.disk) == DiskTotals(s.disk)
    ensures DiskInv(t)
  {
    UnlinkKeys(s.disk.log, s.host.sweeping.day);
  }

  lemma RemoveMem(s: State, t: State)
    requires DiskInv(s) && MemInv(s) && HandInv(s) && Step(s, Remove) == Some(t)
    requires Derive(s.host.mem.baseline, s.host.mem.folded, t.disk.log) == History(s)
    ensures MemInv(t)
  {
    var log, day := s.disk.log, s.host.sweeping.day;
    UnlinkKeys(log, day);
    assert PendingKeys(t.host) == PendingKeys(s.host) + Keys(EventsOf(log, day));
    assert t.host.mem.seen == Keys(AllEvents(t.disk.log)) + PendingKeys(t.host);
  }

  lemma RemoveAppend(s: State, t: State)
    requires Inv(s) && Step(s, Remove) == Some(t)
    ensures AppendInv(t)
  {
    UnlinkKeys(s.disk.log, s.host.sweeping.day);
  }

  lemma RemoveInv(s: State, t: State)
    requires Inv(s) && Step(s, Remove) == Some(t)
    ensures Inv(t)
  {
    RemoveTotals(s, t);
    RemoveDisk(s, t);
    RemoveMem(s, t);
    RemoveAppend(s, t);
    RemoveTodo(s, t);
    RemoveHand(s, t);
  }

  lemma ForgetInv(s: State, t: State)
    requires Inv(s) && Step(s, Forget) == Some(t)
    ensures Inv(t)
  {
    DiskFrame(s, t);
    var es := s.host.sweeping.events;
    assert PendingKeys(t.host) == PendingKeys(s.host) - Keys(es);
    MemFrame(s, t);
    AppendFrame(s, t);
  }

  lemma StepInv(s: State, a: Action, t: State)
    requires Inv(s) && Careful(s, a) && Step(s, a) == Some(t)
    ensures Inv(t)
  {
    match a
    case Boot => BootInv(s, t);
    case Crash(kept, torn) => CrashInv(s, t, kept, torn);
    case BeginAppend(batch, now) => BeginAppendInv(s, t, batch, now);
    case AppendWritten => AppendWrittenInv(s, t);
    case AppendFailed => AppendFailedInv(s, t);
    case Record(i) => RecordInv(s, t, i);
    case BeginSweep(maxAge, now) => BeginSweepInv(s, t, maxAge, now);
    case VisitSegment => VisitInv(s, t);
    case Rename => RenameInv(s, t);
    case Remove => RemoveInv(s, t);
    case Forget => ForgetInv(s, t);
    case WriteTmp => WriteTmpInv(s, t);
    case WriteTmpFailed => WriteTmpFailedInv(s, t);
    case RenameFailed => RenameFailedInv(s, t);
    case RemoveFailed => RemoveFailedInv(s, t);
  }
}

/** The claims about whole runs of the retention machine, from an empty disk on. */
module RetentionTheorems {
  import opened Wrappers
  import opened PlayTotals
  import opened EventLog
  import opened Retention
  import opened RetentionSafety

  lemma RunExtend(s: State, actions: seq<Action>, a: Action)
    ensures Run(s, actions + [a]) == (var t := Run(s, actions); if t.None? then None else Step(t.value, a))
  {
    assert (actions + [a])[..|actions|] == actions;
  }

  lemma {:induction false} RunSplit(s: State, first: seq<Action>, second: seq<Action>)
    ensures Run(s, first + second) == (var t := Run(s, first); if t.None? then None else Run(t.value, second))
  {
    if second == [] {
      assert first + second == first;
    } else {
      var n := |second| - 1;
      RunSplit(s, first, second[..n]);
      assert first + second == (first + second[..n]) + [second[n]];
      RunExtend(s, first + second[..n], second[n]);
    }
  }

  lemma {:induction false} RunInv(actions: seq<Action>)
    requires CarefulRun(Initial, actions) && Run(Initial, actions).Some?
    ensures Inv(Run(Initial, actions).value)
  {
    if actions == [] {
      InitialInv();
    } else {
      var n := |actions| - 1;
      CarefulPrefix(actions, n);
      RunInv(actions[..n]);
      assert Careful(Run(Initial, actions[..n]).value, actions[n]);
      StepInv(Run(Initial, actions[..n]).value, actions[n], Run(Initial, actions).value);
    }
  }

  lemma CarefulPrefix(actions: seq<Action>, n: nat)
    requires n <= |actions| && CarefulRun(Initial, actions)
    ensures CarefulRun(Initial, actions[..n])
  {
    forall i | 0 <= i < n
      ensures var before := Run(Initial, actions[..n][..i]);
        before.Some? ==> Careful(before.value, actions[..n][i])
    {
      assert actions[..n][..i] == actions[..i];
    }
  }

  /**
   * Conservation across crashes. Wherever a run stops, the baseline on disk and the segments
   * it has not absorbed hold, for each recording, exactly the plays that ever reached the disk,
   * and the baseline file is never torn.
   */
  lemma Conservation(actions: seq<Action>, url: string)
    requires CarefulRun(Initial, actions) && Run(Initial, actions).Some?
    ensures var s := Run(Initial, actions).value;
      && Lookup(DiskTotals(s.disk), url) == Totals(Plays(s.history, url), CompletionSum(s.history, url))
      && (url in DiskTotals(s.disk) <==> Plays(s.history, url) > 0)
      && !s.disk.baseline.Corrupt?
  {
    RunInv(actions);
    CountAllMeaning(map[], Run(Initial, actions).value.history, url);
  }

  lemma {:induction false} HistoryOnlyGrows(s: State, actions: seq<Action>)
    requires Run(s, actions).Some?
    ensures s.history <= Run(s, actions).value.history
  {
    if actions != [] {
      HistoryOnlyGrows(s, actions[..|actions| - 1]);
    }
  }

  lemma PlaysOfMore(some: seq<StoredEvent>, more: seq<StoredEvent>, url: string)
    requires some <= more
    ensures Plays(some, url) <= Plays(more, url)
  {
    assert more == some + more[|some|..];
    PlaysConcat(some, more[|some|..], url);
  }

  /** A lifetime play count never decreases, through crashes, restarts and retention. */
  lemma PlaysNeverDecrease(first: seq<Action>, second: seq<Action>, url: string)
    requires CarefulRun(Initial, first + second) && Run(Initial, first + second).Some?
    ensures Run(Initial, first).Some?
    ensures
      Lookup(DiskTotals(Run(Initial, first).value.disk), url).plays
      <= Lookup(DiskTotals(Run(Initial, first + second).value.disk), url).plays
  {
    RunSplit(Initial, first, second);
    CarefulPrefix(first + second, |first|);
    assert (first + second)[..|first|] == first;
    Conservation(first, url);
    Conservation(first + second, url);
    HistoryOnlyGrows(Run(Initial, first).value, second);
    PlaysOfMore(Run(Initial, first).value.history, Run(Initial, first + second).value.history, url);
  }

  /**
   * The fast rollup refines the replay. Once every batch on disk has been recorded, the rollup in
   * memory is what a rebuild would derive from the disk, whatever a sweep is in the middle of.
   */
  lemma RollupIsTheReplay(actions: seq<Action>)
    requires CarefulRun(Initial, actions) && Run(Initial, actions).Some?
    requires Run(Initial, actions).value.host.Up? && Run(Initial, actions).value.host.unrecorded == []
    ensures var s := Run(Initial, actions).value;
      s.host.mem.rollup == DiskTotals(s.disk) == Load(s.disk).rollup
  {
    RunInv(actions);
  }

  /** With no append and no unlinked segment in hand, the dedupe index is exactly the log's keys, all distinct. */
  lemma IndexIsTheLog(actions: seq<Action>)
    requires CarefulRun(Initial, actions) && Run(Initial, actions).Some?
    requires var s := Run(Initial, actions).value;
      s.host.Up? && s.host.appending.Quiet? && !s.host.sweeping.Forgetting?
    ensures var s := Run(Initial, actions).value;
      s.host.mem.seen == Keys(AllEvents(s.disk.log)) && DistinctKeys(AllEvents(s.disk.log))
  {
    RunInv(actions);
  }

  /** No accepted event carries a key whose segment was already swept. */
  ghost predicate NotResent(s: State, a: Action) {
    a.BeginAppend? && s.host.Up? ==> Keys(Judge(s.host.mem.seen, a.batch, a.now).accepted) !! s.gone
  }

  ghost predicate NeverResent(actions: seq<Action>) {
    forall i :: 0 <= i < |actions| ==>
      var before := Run(Initial, actions[..i]);
      before.Some? ==> NotResent(before.value, actions[i])
  }

  ghost predicate OnceInv(s: State) {
    && DistinctKeys(s.history)
    && (s.host.Up? && s.host.appending.Writing? ==> Keys(s.host.appending.accepted) !! s.gone)
  }

  lemma OnceStep(s: State, a: Action, t: State)
    requires Inv(s) && OnceInv(s) && NotResent(s, a) && Step(s, a) == Some(t)
    ensures OnceInv(t)
  {
    if a.AppendWritten? {
      OnceWritten(s, s.host.appending.accepted);
    } else if a.Crash? {
      OnceCrash(s, a.kept, a.torn, t);
    } else if a.Remove? {
      OnceRemove(s, t);
    } else if a.BeginAppend? {
      OnceBegun(s, a, t);
    } else {
      OnceElse(s, a, t);
    }
  }

  lemma OnceCrash(s: State, kept: nat, torn: bool, t: State)
    requires Inv(s) && OnceInv(s) && Step(s, Crash(kept, torn)) == Some(t)
    ensures OnceInv(t)
  {
    if s.host.appending.Writing? && kept <= |s.host.appending.accepted| {
      OnceWritten(s, s.host.appending.accepted[..kept]);
    } else {
      assert t.history == s.history;
    }
  }

  lemma OnceRemove(s: State, t: State)
    requires Inv(s) && OnceInv(s) && Step(s, Remove) == Some(t)
    ensures OnceInv(t)
  {
    if s.host.appending.Writing? {
      UnlinkKeys(s.disk.log, s.host.sweeping.day);
    }
  }

  lemma OnceBegun(s: State, a: Action, t: State)
    requires Inv(s) && OnceInv(s) && NotResent(s, a) && a.BeginAppend? && Step(s, a) == Some(t)
    ensures OnceInv(t)
  {
  }

  lemma OnceElse(s: State, a: Action, t: State)
    requires OnceInv(s) && Step(s, a) == Some(t)
    requires !a.AppendWritten? && !a.Crash? && !a.Remove? && !a.BeginAppend?
    ensures OnceInv(t)
  {
    assert t.history == s.history && t.gone == s.gone;
    assert t.host.Up? && t.host.appending.Writing? ==> s.host.Up? && t.host.appending == s.host.appending;
  }

  lemma OnceWritten(s: State, kept: seq<StoredEvent>)
    requires Inv(s) && OnceInv(s) && s.host.Up? && s.host.appending.Writing?
    requires kept <= s.host.appending.accepted
    ensures DistinctKeys(s.history + kept)
  {
    assert Keys(kept) <= Keys(s.host.appending.accepted);
    assert s.history + [] == s.history;
    assert DistinctKeys(kept);
    DistinctInsert(s.history, kept, []);
    assert s.history + kept + [] == s.history + kept;
  }

  /**
   * Exactly once. If no event is sent again after its segment was swept, then no device and id
   * pair is ever counted twice, however often a batch is resent.
   */
  lemma {:induction false} CountedAtMostOnce(actions: seq<Action>)
    requires CarefulRun(Initial, actions) && NeverResent(actions) && Run(Initial, actions).Some?
    ensures DistinctKeys(Run(Initial, actions).value.history)
    ensures OnceInv(Run(Initial, actions).value)
  {
    if actions != [] {
      var n := |actions| - 1;
      CarefulPrefix(actions, n);
      forall i | 0 <= i < n
        ensures var before := Run(Initial, actions[..n][..i]);
          before.Some? ==> NotResent(before.value, actions[..n][i])
      {
        assert actions[..n][..i] == actions[..i];
      }
      CountedAtMostOnce(actions[..n]);
      RunInv(actions[..n]);
      OnceStep(Run(Initial, actions[..n]).value, actions[n], Run(Initial, actions).value);
    }
  }

  /** `startSyncServer` sweeps once for each store it opens. */
  ghost predicate OneSweepPerLaunch(actions: seq<Action>) {
    forall i, j :: 0 <= i < j < |actions| && actions[i].BeginSweep? && actions[j].BeginSweep? ==>
      exists k :: i < k < j && actions[k].Boot?
  }

  ghost predicate NoSweepSinceBoot(actions: seq<Action>) {
    forall i :: 0 <= i < |actions| && actions[i].BeginSweep? ==> exists k :: i < k < |actions| && actions[k].Boot?
  }

  lemma {:induction false} UnsweptIsSaved(s: State, actions: seq<Action>)
    requires s.host.Down? && NoSweepSinceBoot(actions) && Run(s, actions).Some?
    ensures var t := Run(s, actions).value;
      t.host.Up? ==> t.host.sweeping.Idle? && t.host.mem.folded == Folded(t.disk.baseline)
  {
    if actions != [] {
      var n := |actions| - 1;
      if !actions[n].Boot? {
        assert !actions[n].BeginSweep?;
        forall i | 0 <= i < n && actions[..n][i].BeginSweep?
          ensures exists k :: i < k < n && actions[..n][k].Boot?
        {
          assert actions[i].BeginSweep?;
          var k :| i < k < |actions| && actions[k].Boot?;
          assert actions[..n][k].Boot?;
        }
        UnsweptIsSaved(s, actions[..n]);
      }
    }
  }

  /** One sweep a launch is always careful about unsaved folds. */
  lemma OneSweepPerLaunchIsSaved(actions: seq<Action>, i: nat)
    requires OneSweepPerLaunch(actions) && i < |actions| && actions[i].BeginSweep?
    requires Run(Initial, actions[..i]).Some?
    ensures Saved(Run(Initial, actions[..i]).value)
    ensures forall cutoff :: SavedUpTo(Run(Initial, actions[..i]).value, cutoff)
  {
    forall j | 0 <= j < i && actions[..i][j].BeginSweep?
      ensures exists k :: j < k < i && actions[..i][k].Boot?
    {
      var k :| j < k < i && actions[k].Boot?;
      assert actions[..i][k].Boot?;
    }
    UnsweptIsSaved(Initial, actions[..i]);
  }

  /** Unlinking a segment keeps every total exactly when the disk's baseline names it, or it holds no event. */
  lemma RemoveConservesIff(s: State, t: State)
    requires Sorted(s.disk.log) && Step(s, Remove) == Some(t)
    ensures
      DiskTotals(t.disk) == DiskTotals(s.disk)
      <==> s.host.sweeping.day in Folded(s.disk.baseline) || EventsOf(s.disk.log, s.host.sweeping.day) == []
  {
    var day, base, folded, log := s.host.sweeping.day, Recordings(s.disk.baseline), Folded(s.disk.baseline), s.disk.log;
    if day in folded {
      UnlinkKeepsTotals(base, folded, log, day);
    } else {
      UnlinkIsSkip(log, folded, day);
      var x, y := SkipSplits(log, folded, day);
      var es := EventsOf(log, day);
      assert x + [] + y == x + y;
      CountAllHoist(base, x, es, y);
      if es != [] {
        var url := es[0].event.recordingUrl;
        CountAllMeaning(CountAll(base, x + y), es, url);
      }
    }
  }

  lemma RunThree(s: State, a: Action, b: Action, c: Action)
    ensures Run(s, [a, b, c]) == (
      var t := Step(s, a);
      if t.None? then None
      else
        var u := Step(t.value, b);
        if u.None? then None else Step(u.value, c))
  {
    RunExtend(s, [], a);
    RunExtend(s, [a], b);
    RunExtend(s, [a, b], c);
    assert [] + [a] == [a] && [a] + [b] == [a, b] && [a, b] + [c] == [a, b, c];
  }

  // ---- One sweep, with any of its writes failing ----

  predicate IsSweepAction(a: Action) {
    a.VisitSegment? || a.WriteTmp? || a.WriteTmpFailed? || a.Rename? || a.RenameFailed? || a.Remove? || a.RemoveFailed?
      || a.Forget?
  }

  /** Only a sweep has moved on. */
  predicate SweptOn(before: seq<Action>, run: seq<Action>) {
    before <= run && forall i :: |before| <= i < |run| ==> IsSweepAction(run[i])
  }

  /** One sweep from its start, to any point of it. */
  predicate OneSweep(run: seq<Action>, maxAge: nat, now: int) {
    SweptOn([BeginSweep(maxAge, now)], run)
  }

  lemma SweepAddsNothing(s: State, a: Action, t: State)
    requires (IsSweepAction(a) || a.BeginSweep?) && Step(s, a) == Some(t)
    ensures t.history == s.history
  {
  }

  lemma {:induction false} CarefulSweepRuns(s: State, run: seq<Action>, maxAge: nat, now: int)
    requires Inv(s) && Careful(s, BeginSweep(maxAge, now)) && OneSweep(run, maxAge, now) && Run(s, run).Some?
    ensures Inv(Run(s, run).value) && Run(s, run).value.history == s.history
  {
    var n := |run| - 1;
    if n == 0 {
      assert run[..0] == [] && Run(s, []) == Some(s);
      SweepAddsNothing(s, run[0], Run(s, run).value);
      StepInv(s, run[0], Run(s, run).value);
    } else {
      assert IsSweepAction(run[n]);
      CarefulSweepRuns(s, run[..n], maxAge, now);
      SweepAddsNothing(Run(s, run[..n]).value, run[n], Run(s, run).value);
      StepInv(Run(s, run[..n]).value, run[n], Run(s, run).value);
    }
  }

  lemma CarefulSweepConserves(s: State, run: seq<Action>, maxAge: nat, now: int)
    requires Inv(s) && Careful(s, BeginSweep(maxAge, now)) && OneSweep(run, maxAge, now) && Run(s, run).Some?
    ensures Inv(Run(s, run).value) && DiskTotals(Run(s, run).value.disk) == DiskTotals(s.disk)
  {
    CarefulSweepRuns(s, run, maxAge, now);
    assert History(Run(s, run).value) == History(s);
  }

  /** The listed segments that are due and that memory has folded. */
  function Due(folded: set<int>, todo: seq<int>, cutoff: int): set<int> {
    set d | d in todo && SegmentEnd(d) <= cutoff && d in folded
  }

  /** The baseline is as it was, and what it leaves to the log has lost some days. */
  predicate TakenOff(before: Disk, after: Disk, days: set<int>) {
    after.baseline == before.baseline
    && Live(after.log, Folded(before.baseline)) == Live(before.log, Folded(before.baseline) + days)
  }

  lemma RunFirst(s: State, a: Action, run: seq<Action>)
    requires Step(s, a).Some?
    ensures Run(s, [a] + run) == Run(Step(s, a).value, run)
  {
    RunExtend(s, [], a);
    assert [] + [a] == [a];
    RunSplit(s, [a], run);
  }

  /**
   * With every baseline write failing, the rest of a sweep takes the due segments that memory has folded off the
   * disk.
   */
  lemma {:induction false} FailingLoop(s: State) returns (run: seq<Action>)
    requires s.host.Up? && s.host.sweeping.Scanning? && Sorted(s.disk.log)
    requires var todo := s.host.sweeping.todo; forall i, j :: 0 <= i < j < |todo| ==> todo[i] != todo[j]
    ensures forall i :: 0 <= i < |run| ==> IsSweepAction(run[i])
    ensures Run(s, run).Some? && Run(s, run).value.host.Up? && Run(s, run).value.host.sweeping.Idle?
    ensures TakenOff(s.disk, Run(s, run).value.disk, Due(s.host.mem.folded, s.host.sweeping.todo,
      s.host.sweeping.cutoff))
    decreases |s.host.sweeping.todo|
  {
    var w, folded := s.host.sweeping, Folded(s.disk.baseline);
    var t := Step(s, VisitSegment).value;
    if w.todo == [] {
      assert folded + Due(s.host.mem.folded, w.todo, w.cutoff) == folded;
      var rest := if t.host.sweeping.Idle? then [] else [WriteTmpFailed];
      run := [VisitSegment] + rest;
      RunFirst(s, VisitSegment, rest);
      if rest != [] {
        RunFirst(t, WriteTmpFailed, []);
        assert [WriteTmpFailed] + [] == [WriteTmpFailed];
      }
    } else {
      var day := w.todo[0];
      assert w.todo == [day] + w.todo[1..];
      if t.host.sweeping.Scanning? {
        assert Due(s.host.mem.folded, w.todo, w.cutoff) == Due(s.host.mem.folded, w.todo[1..], w.cutoff);
        var rest := FailingLoop(t);
        run := [VisitSegment] + rest;
        RunFirst(s, VisitSegment, rest);
      } else if t.host.sweeping.Unlinking? {
        run := FailingLoopRemoves(s, t, day);
      } else {
        var u := Step(t, WriteTmpFailed).value;
        assert Due(s.host.mem.folded, w.todo, w.cutoff) == Due(u.host.mem.folded, w.todo[1..], w.cutoff);
        var rest := FailingLoop(u);
        run := [VisitSegment] + ([WriteTmpFailed] + rest);
        RunFirst(s, VisitSegment, [WriteTmpFailed] + rest);
        RunFirst(t, WriteTmpFailed, rest);
      }
    }
  }

  lemma {:induction false} FailingLoopRemoves(s: State, t: State, day: int) returns (run: seq<Action>)
    requires s.host.Up? && s.host.sweeping.Scanning? && Sorted(s.disk.log)
    requires var todo := s.host.sweeping.todo; todo != [] && todo[0] == day && forall i, j :: 0 <= i < j < |todo| ==>
      todo[i] != todo[j]
    requires Step(s, VisitSegment) == Some(t) && t.host.sweeping.Unlinking?
    ensures forall i :: 0 <= i < |run| ==> IsSweepAction(run[i])
    ensures Run(s, run).Some? && Run(s, run).value.host.Up? && Run(s, run).value.host.sweeping.Idle?
    ensures TakenOff(s.disk, Run(s, run).value.disk, Due(s.host.mem.folded, s.host.sweeping.todo,
      s.host.sweeping.cutoff))
    decreases |s.host.sweeping.todo|, 0
  {
    var u := Step(t, Remove).value;
    var v := Step(u, Action.Forget).value;
    UnlinkSorted(s.disk.log, day);
    var rest := FailingLoop(v);
    OneMoreTakenOff(s, Run(v, rest).value.disk);
    run := [VisitSegment] + ([Remove] + ([Action.Forget] + rest));
    RunFirst(s, VisitSegment, [Remove] + ([Action.Forget] + rest));
    RunFirst(t, Remove, [Action.Forget] + rest);
    RunFirst(u, Action.Forget, rest);
  }

  lemma OneMoreTakenOff(s: State, after: Disk)
    requires s.host.Up? && s.host.sweeping.Scanning? && s.host.sweeping.todo != [] && Sorted(s.disk.log)
    requires var day, w := s.host.sweeping.todo[0], s.host.sweeping;
      && day in s.host.mem.folded && SegmentEnd(day) <= w.cutoff
      && TakenOff(s.disk.(log := Unlink(s.disk.log, day)), after, Due(s.host.mem.folded, w.todo[1..], w.cutoff))
    ensures TakenOff(s.disk, after, Due(s.host.mem.folded, s.host.sweeping.todo, s.host.sweeping.cutoff))
  {
    var w, day, folded := s.host.sweeping, s.host.sweeping.todo[0], Folded(s.disk.baseline);
    var due := Due(s.host.mem.folded, w.todo[1..], w.cutoff);
    UnlinkIsSkip(s.disk.log, folded + due, day);
    assert w.todo == [day] + w.todo[1..];
    assert folded + Due(s.host.mem.folded, w.todo, w.cutoff) == folded + due + {day};
  }

  lemma {:induction false} SkippingMore(log: Log, some: set<int>, more: set<int>, url: string)
    requires some <= more
    ensures Plays(Live(log, more), url) <= Plays(Live(log, some), url)
  {
    if log != [] {
      SkippingMore(log[1..], some, more, url);
      LiveFirst(log, some, url);
      LiveFirst(log, more, url);
    }
  }

  lemma LiveFirst(log: Log, skipped: set<int>, url: string)
    requires log != []
    ensures Plays(Live(log, skipped), url)
      == Plays(Live(log[1..], skipped), url) + if log[0].day in skipped then 0 else Plays(log[0].events, url)
  {
    var rest := Live(log[1..], skipped);
    PlaysConcat(log[0].events, rest, url);
    assert [] + rest == rest;
  }

  lemma SkippingOne(log: Log, some: set<int>, more: set<int>, day: int)
    requires Sorted(log) && some <= more && day in more && day !in some && EventsOf(log, day) != []
    ensures var url := EventsOf(log, day)[0].event.recordingUrl; Plays(Live(log, more), url) < Plays(Live(log, some),
      url)
  {
    var es := EventsOf(log, day);
    var url := es[0].event.recordingUrl;
    var x, y := SkipSplits(log, some, day);
    SkippingMore(log, some + {day}, more, url);
    PlaysConcat(x + es, y, url);
    PlaysConcat(x, es, url);
    PlaysConcat(x, y, url);
  }

  lemma FewerPlays(before: Disk, after: Disk, days: set<int>, day: int)
    requires Sorted(before.log) && TakenOff(before, after, days)
    requires day in days && day !in Folded(before.baseline) && EventsOf(before.log, day) != []
    ensures var url := EventsOf(before.log, day)[0].event.recordingUrl;
      Lookup(DiskTotals(after), url).plays < Lookup(DiskTotals(before), url).plays
  {
    var url, base, folded := EventsOf(before.log, day)[0].event.recordingUrl, Recordings(before.baseline),
      Folded(before.baseline);
    SkippingOne(before.log, folded, folded + days, day);
    CountAllMeaning(base, Live(before.log, folded), url);
    CountAllMeaning(base, Live(after.log, folded), url);
  }

  lemma BeginSweepLists(s: State, maxAge: nat, now: int)
    requires s.host.Up? && s.host.sweeping.Idle? && s.clock <= now && Sorted(s.disk.log)
    ensures var days := Days(s.disk.log);
      && Step(s, BeginSweep(maxAge, now))
         == Some(s.(clock := now, host := s.host.(sweeping := Scanning(days, now - maxAge, {}))))
      && forall i, j :: 0 <= i < j < |days| ==> days[i] != days[j]
  {
    DaysAreListed(s.disk.log);
  }

  lemma FailingSweep(s: State, maxAge: nat, now: int) returns (run: seq<Action>)
    requires s.host.Up? && s.host.sweeping.Idle? && s.clock <= now && Sorted(s.disk.log)
    ensures OneSweep(run, maxAge, now) && Run(s, run).Some?
    ensures Run(s, run).value.host.Up? && Run(s, run).value.host.sweeping.Idle?
    ensures TakenOff(s.disk, Run(s, run).value.disk, Due(s.host.mem.folded, Days(s.disk.log), now - maxAge))
  {
    BeginSweepLists(s, maxAge, now);
    var t := s.(clock := now, host := s.host.(sweeping := Scanning(Days(s.disk.log), now - maxAge, {})));
    var rest := FailingLoop(t);
    run := [BeginSweep(maxAge, now)] + rest;
    RunFirst(s, BeginSweep(maxAge, now), rest);
    SweepOf(rest, maxAge, now);
  }

  lemma SweepOf(rest: seq<Action>, maxAge: nat, now: int)
    requires forall i :: 0 <= i < |rest| ==> IsSweepAction(rest[i])
    ensures OneSweep([BeginSweep(maxAge, now)] + rest, maxAge, now)
  {
  }

  /**
   * A sweep that meets an unsaved segment, and whose baseline writes fail, ends with fewer plays on disk than it
   * began with.
   */
  lemma UncarefulSweepLoses(s: State, maxAge: nat, now: int) returns (run: seq<Action>, url: string)
    requires s.host.Up? && s.host.sweeping.Idle? && s.clock <= now && Sorted(s.disk.log)
    requires !SavedUpTo(s, now - maxAge)
    ensures OneSweep(run, maxAge, now) && Run(s, run).Some?
    ensures Run(s, run).value.host.Up? && Run(s, run).value.host.sweeping.Idle?
    ensures Lookup(DiskTotals(Run(s, run).value.disk), url).plays < Lookup(DiskTotals(s.disk), url).plays
  {
    var day :| day in Days(s.disk.log) && SegmentEnd(day) <= now - maxAge && Unsaved(s, day);
    url := EventsOf(s.disk.log, day)[0].event.recordingUrl;
    run := FailingSweep(s, maxAge, now);
    FewerPlays(s.disk, Run(s, run).value.disk, Due(s.host.mem.folded, Days(s.disk.log), now - maxAge), day);
  }

  /**
   * Every outcome of a sweep, to whatever point it comes and whichever of its writes fail, keeps the
   * totals on disk exactly when no segment that is due is folded in memory, absent from the baseline
   * on disk, and holds an event.
   */
  lemma SweepConservesIff(s: State, maxAge: nat, now: int)
    requires Inv(s) && s.host.Up? && s.host.sweeping.Idle? && s.clock <= now
    requires s.host.appending.Writing? ==> SegmentEnd(s.host.appending.day) > now - maxAge
    ensures
      (forall run :: OneSweep(run, maxAge, now) && Run(s, run).Some? ==>
        DiskTotals(Run(s, run).value.disk) == DiskTotals(s.disk))
      <==> SavedUpTo(s, now - maxAge)
  {
    if SavedUpTo(s, now - maxAge) {
      forall run | OneSweep(run, maxAge, now) && Run(s, run).Some?
        ensures DiskTotals(Run(s, run).value.disk) == DiskTotals(s.disk)
      {
        CarefulSweepConserves(s, run, maxAge, now);
      }
    } else {
      var run, url := UncarefulSweepLoses(s, maxAge, now);
      assert OneSweep(run, maxAge, now);
    }
  }

  // ---- The sweep of a launch whose totals failed to open ----

  /** What the sweep leaves of a log when nothing folds. */
  function NotDue(log: Log, cutoff: int): Log {
    if log == [] then []
    else if SegmentEnd(log[0].day) <= cutoff then NotDue(log[1..], cutoff)
    else [log[0]] + NotDue(log[1..], cutoff)
  }

  /** What is left of a log when the first `i` segments of the listing are done with. */
  function Remaining(log: Log, i: nat, cutoff: int): Log
    requires i <= |log|
  {
    NotDue(log[..i], cutoff) + log[i..]
  }

  lemma RemainingFirst(log: Log, i: nat, cutoff: int)
    requires 0 < i <= |log|
    ensures Remaining(log, i, cutoff)
      == (if SegmentEnd(log[0].day) <= cutoff then [] else [log[0]]) + Remaining(log[1..], i - 1, cutoff)
  {
    assert log[..i][1..] == log[1..][..i - 1] && log[..i][0] == log[0] && log[1..][i - 1..] == log[i..];
    assert [] + Remaining(log[1..], i - 1, cutoff) == Remaining(log[1..], i - 1, cutoff);
  }

  lemma {:induction false} RemainingSkips(log: Log, i: nat, skipped: set<int>, due: set<int>, cutoff: int)
    requires i <= |log|
    requires forall k :: 0 <= k < |log| ==> (log[k].day in due <==> k < i && SegmentEnd(log[k].day) <= cutoff)
    ensures Live(Remaining(log, i, cutoff), skipped) == Live(log, skipped + due)
    decreases |log|
  {
    if i == 0 {
      assert Remaining(log, 0, cutoff) == log;
      SkipAbsent(log, skipped, due);
    } else {
      assert log[0].day in due <==> SegmentEnd(log[0].day) <= cutoff;
      forall k | 0 <= k < |log[1..]|
        ensures log[1..][k].day in due <==> k < i - 1 && SegmentEnd(log[1..][k].day) <= cutoff
      {
        assert log[1..][k] == log[k + 1];
      }
      RemainingSkips(log[1..], i - 1, skipped, due, cutoff);
      RemainingFirst(log, i, cutoff);
      var rest := Remaining(log[1..], i - 1, cutoff);
      assert [] + rest == rest && ([log[0]] + rest)[1..] == rest;
      assert [] + Live(log[1..], skipped + due) == Live(log[1..], skipped + due);
    }
  }

  lemma {:induction false} SkippingNothing(log: Log, skipped: set<int>, due: set<int>)
    requires Sorted(log) && forall d :: d in due && d in Days(log) ==> d in skipped || EventsOf(log, d) == []
    ensures Live(log, skipped + due) == Live(log, skipped)
  {
    if log != [] {
      DaysAreListed(log);
      DaysAreListed(log[1..]);
      forall d | d in due && d in Days(log[1..])
        ensures d in skipped || EventsOf(log[1..], d) == []
      {
        assert d in Days(log);
      }
      SkippingNothing(log[1..], skipped, due);
      assert log[0].day in Days(log);
      assert [] + Live(log[1..], skipped) == Live(log[1..], skipped);
    }
  }

  lemma {:induction false} EventsAt(log: Log, k: nat)
    requires Sorted(log) && k < |log|
    ensures log[k].day in Days(log) && EventsOf(log, log[k].day) == log[k].events
  {
    DaysAreListed(log);
    assert Days(log)[k] == log[k].day;
    if k > 0 {
      EventsAt(log[1..], k - 1);
    }
  }

  lemma DueOfFirst(log: Log, i: nat, cutoff: int) returns (due: set<int>)
    requires Sorted(log) && i <= |log|
    ensures forall k :: 0 <= k < |log| ==> (log[k].day in due <==> k < i && SegmentEnd(log[k].day) <= cutoff)
    ensures forall d :: d in due ==> exists k :: 0 <= k < i && log[k].day == d && SegmentEnd(d) <= cutoff
  {
    due := set k | 0 <= k < i && SegmentEnd(log[k].day) <= cutoff :: log[k].day;
  }

  /**
   * Wherever such a sweep stops, it has kept the totals exactly when the baseline on disk names every due
   * segment it came to that holds an event. At the end nothing due is left.
   */
  lemma RawSweepConservesIff(disk: Disk, i: nat, cutoff: int)
    requires Sorted(disk.log) && i <= |disk.log|
    ensures DiskTotals(disk.(log := Remaining(disk.log, i, cutoff))) == DiskTotals(disk)
      <==> forall k :: 0 <= k < i && SegmentEnd(disk.log[k].day) <= cutoff ==>
        disk.log[k].day in Folded(disk.baseline) || disk.log[k].events == []
    ensures Remaining(disk.log, |disk.log|, cutoff) == NotDue(disk.log, cutoff)
  {
    var log, folded := disk.log, Folded(disk.baseline);
    assert log[..|log|] == log;
    var due := DueOfFirst(log, i, cutoff);
    RemainingSkips(log, i, folded, due, cutoff);
    if k :| 0 <= k < i && SegmentEnd(log[k].day) <= cutoff && !(log[k].day in folded || log[k].events == []) {
      EventsAt(log, k);
      FewerPlays(disk, disk.(log := Remaining(log, i, cutoff)), due, log[k].day);
    } else {
      forall d | d in due
        ensures d in folded || EventsOf(log, d) == []
      {
        var k :| 0 <= k < i && log[k].day == d && SegmentEnd(d) <= cutoff;
        EventsAt(log, k);
      }
      SkippingNothing(log, folded, due);
    }
  }

  /** The first day's only play, on disk and not yet swept. */
  function OnePlay(e: PlaybackEvent): State {
    var es := [StoredEvent(e, 0)];
    Initial.(disk := Disk([Segment(0, es)], Missing, Missing), history := es,
             host := Up(Memory(Keys(es), map[], {}, map[]), Quiet, [es], Idle))
  }

  lemma OnePlayIsReachable(e: PlaybackEvent)
    requires e.id != "" && e.recordingUrl != ""
    ensures Run(Initial, [Boot, BeginAppend([e], 0), AppendWritten]) == Some(OnePlay(e))
  {
    RunThree(Initial, Boot, BeginAppend([e], 0), AppendWritten);
    var es := [StoredEvent(e, 0)];
    assert Load(Initial.disk) == Memory({}, map[], {}, map[]);
    assert [e][..0] == [];
    assert Judge({}, [e], 0).accepted == [] + es == es;
    assert {} + Keys(es) == Keys(es);
    assert AppendTo([], 0, es) == [Segment(0, es)] + [] == [Segment(0, es)];
    assert DayOf(0) == 0;
    assert [] + es == es && [] + [es] == [es];
  }

  /** A launch that finds that play due, no baseline, and no totals, loses it. */
  lemma RawSweepCanLose(e: PlaybackEvent)
    ensures var disk := OnePlay(e).disk; DiskTotals(disk.(log := NotDue(disk.log, DAY_MS))) != DiskTotals(disk)
  {
    RawSweepConservesIff(OnePlay(e).disk, 1, DAY_MS);
  }

  function UnsavedFold(e: PlaybackEvent): State {
    var s := OnePlay(e);
    s.(disk := s.disk.(tmp := Corrupt), clock := DAY_MS,
       host := s.host.(mem := s.host.mem.(folded := {0}, baseline := CountAll(map[], s.history))))
  }

  lemma FailedSweepRuns(e: PlaybackEvent)
    requires e.id != "" && e.recordingUrl != ""
    ensures Run(OnePlay(e), [BeginSweep(0, DAY_MS), VisitSegment, WriteTmpFailed, VisitSegment]) == Some(UnsavedFold(e))
  {
    RunThree(OnePlay(e), BeginSweep(0, DAY_MS), VisitSegment, WriteTmpFailed);
    RunExtend(OnePlay(e), [BeginSweep(0, DAY_MS), VisitSegment, WriteTmpFailed], VisitSegment);
    assert [BeginSweep(0, DAY_MS), VisitSegment, WriteTmpFailed] + [VisitSegment]
        == [BeginSweep(0, DAY_MS), VisitSegment, WriteTmpFailed, VisitSegment];
    assert Days(OnePlay(e).disk.log) == [0];
    assert {} + {0} == {0};
  }

  /** Such a state is reachable: one play, and one careful sweep whose baseline write failed. */
  lemma UncarefulSweepIsReachable(e: PlaybackEvent) returns (actions: seq<Action>)
    requires e.id != "" && e.recordingUrl != ""
    ensures CarefulRun(Initial, actions) && Run(Initial, actions) == Some(UnsavedFold(e))
  {
    var start := [Boot, BeginAppend([e], 0), AppendWritten];
    actions := start + [BeginSweep(0, DAY_MS), VisitSegment, WriteTmpFailed, VisitSegment];
    OnePlayIsReachable(e);
    FailedSweepRuns(e);
    RunSplit(Initial, start, [BeginSweep(0, DAY_MS), VisitSegment, WriteTmpFailed, VisitSegment]);
    assert actions[..3] == start;
    assert Careful(OnePlay(e), actions[3]);
    assert forall i :: 0 <= i < |actions| && i != 3 ==> !actions[i].BeginSweep?;
  }
}

/**
 * The playback log with crash-safe retention, as a step machine. Each action is one
 * piece of `eventStore.ts` or `aggregates.ts` that runs without another running
 * between, so a run may put an ingest, a crash or a restart between any two disk
 * effects. `history` and `gone` only observe the run.
 */
module Retention {
  import opened Wrappers
  import opened PlayTotals
  import opened EventLog

  /** What a reader finds at a baseline path. A torn write leaves `Corrupt`. */
  datatype BaselineFile = Missing | Corrupt | Stored(folded: set<int>, recordings: Rollup)

  datatype Disk = Disk(log: Log, baseline: BaselineFile, tmp: BaselineFile)

  datatype Memory = Memory(seen: set<string>, baseline: Rollup, folded: set<int>, rollup: Rollup)

  /** The one append the store's queue lets run. */
  datatype Appending = Quiet | Writing(accepted: seq<StoredEvent>, day: int)

  /** Where a sweep is. `todo` is the rest of the listing, `removed` the result so far. */
  datatype Sweeping =
    | Idle
    | Scanning(todo: seq<int>, cutoff: int, removed: set<int>)
    | Persisting(day: int, events: seq<StoredEvent>, todo: seq<int>, cutoff: int, removed: set<int>)
    | Renaming(day: int, events: seq<StoredEvent>, todo: seq<int>, cutoff: int, removed: set<int>)
    | Unlinking(day: int, events: seq<StoredEvent>, todo: seq<int>, cutoff: int, removed: set<int>)
    | Forgetting(day: int, events: seq<StoredEvent>, todo: seq<int>, cutoff: int, removed: set<int>)
    | SettlePersisting
    | SettleRenaming

  /** `unrecorded` holds batches on disk whose caller has not yet passed them to `record`. */
  datatype Host = Down | Up(mem: Memory, appending: Appending, unrecorded: seq<seq<StoredEvent>>, sweeping: Sweeping)

  datatype State = State(disk: Disk, host: Host, clock: int, history: seq<StoredEvent>, gone: set<string>)

  datatype Action =
    | Boot
    /** The process dies. `kept` whole lines of a running append made it, `torn` cuts a baseline write short. */
    | Crash(kept: nat, torn: bool)
    | BeginAppend(batch: seq<PlaybackEvent>, now: int)
    | AppendWritten
    | AppendFailed
    | Record(index: nat)
    | BeginSweep(maxAge: nat, now: int)
    | VisitSegment
    | WriteTmp
    | WriteTmpFailed
    | Rename
    | RenameFailed
    | Remove
    | RemoveFailed
    | Forget

  const Initial := State(Disk([], Missing, Missing), Down, 0, [], {})

  function Folded(f: BaselineFile): set<int> {
    if f.Stored? then f.folded else {}
  }

  /** `readBaseline` keeps only entries with a name. A missing or unreadable file counts as empty. */
  function Recordings(f: BaselineFile): Rollup {
    if f.Stored? then map u | u in f.recordings && u != "" :: f.recordings[u] else map[]
  }

  /** What `derive` computes: the baseline plus every segment it has not absorbed. */
  function Derive(baseline: Rollup, folded: set<int>, log: Log): Rollup {
    CountAll(baseline, Live(log, folded))
  }

  /** The totals a host would report if it started from this disk. */
  function DiskTotals(d: Disk): Rollup {
    Derive(Recordings(d.baseline), Folded(d.baseline), d.log)
  }

  function Load(d: Disk): Memory {
    Memory(Keys(AllEvents(d.log)), Recordings(d.baseline), Folded(d.baseline), DiskTotals(d))
  }

  function Flatten(batches: seq<seq<StoredEvent>>): seq<StoredEvent> {
    if batches == [] then [] else batches[0] + Flatten(batches[1..])
  }

  /** Every batch an ingest route lets through names a recording. */
  predicate NamesRecordings(batch: seq<PlaybackEvent>) {
    forall e :: e in batch ==> e.recordingUrl != ""
  }

  function Snapshot(m: Memory): BaselineFile {
    Stored(m.folded, m.baseline)
  }

  /** The state after an action, or `None` where the code cannot take it. */
  function Step(s: State, a: Action): Option<State> {
    match a
    case Boot =>
      if s.host.Down? then Some(s.(host := Up(Load(s.disk), Quiet, [], Idle))) else None
    case Crash(kept, torn) => if s.host.Up? then Some(AfterCrash(s, kept, torn)) else None
    case _ => if s.host.Up? then StepUp(s, a) else None
  }

  function AfterCrash(s: State, kept: nat, torn: bool): State
    requires s.host.Up?
  {
    var h := s.host;
    var lines := if h.appending.Writing? && kept <= |h.appending.accepted| then h.appending.accepted[..kept] else [];
    var log := if lines == [] then s.disk.log else AppendTo(s.disk.log, h.appending.day, lines);
    var tmp := if torn && (h.sweeping.Persisting? || h.sweeping.SettlePersisting?) then Corrupt else s.disk.tmp;
    s.(disk := Disk(log, s.disk.baseline, tmp), host := Down, history := s.history + lines)
  }

  function StepUp(s: State, a: Action): Option<State>
    requires s.host.Up?
  {
    var h := s.host;
    var m := h.mem;
    match a
    case BeginAppend(batch, now) =>
      if !h.appending.Quiet? || now < s.clock || !NamesRecordings(batch) then None
      else
        var accepted := Judge(m.seen, batch, now).accepted;
        if accepted == [] then Some(s.(clock := now))
        else Some(s.(clock := now,
                     host := h.(mem := m.(seen := m.seen + Keys(accepted)),
                       appending := Writing(accepted, DayOf(now)))))
    case AppendWritten =>
      if !h.appending.Writing? then None
      else
        var accepted := h.appending.accepted;
        Some(s.(disk := s.disk.(log := AppendTo(s.disk.log, h.appending.day, accepted)),
                history := s.history + accepted,
                host := h.(appending := Quiet, unrecorded := h.unrecorded + [accepted])))
    case AppendFailed =>
      if !h.appending.Writing? then None
      else Some(s.(host := h.(appending := Quiet, mem := m.(seen := m.seen - Keys(h.appending.accepted)))))
    case Record(i) =>
      if i >= |h.unrecorded| then None
      else Some(s.(host := h.(mem := m.(rollup := CountAll(m.rollup, h.unrecorded[i])),
                              unrecorded := h.unrecorded[..i] + h.unrecorded[i + 1..])))
    case BeginSweep(maxAge, now) =>
      if !h.sweeping.Idle? || now < s.clock then None
      else Some(s.(clock := now, host := h.(sweeping := Scanning(Days(s.disk.log), now - maxAge, {}))))
    case _ => SweepStep(s, a)
  }

  function SweepStep(s: State, a: Action): Option<State>
    requires s.host.Up?
  {
    var h := s.host;
    var m := h.mem;
    match (a, h.sweeping)
    case (VisitSegment, Scanning(todo, cutoff, removed)) => Some(s.(host := Visit(h, s.disk.log, todo, cutoff,
      removed)))
    case (WriteTmp, Persisting(day, es, todo, cutoff, removed)) =>
      Some(s.(disk := s.disk.(tmp := Snapshot(m)), host := h.(sweeping := Renaming(day, es, todo, cutoff, removed))))
    case (WriteTmp, SettlePersisting) =>
      Some(s.(disk := s.disk.(tmp := Snapshot(m)), host := h.(sweeping := SettleRenaming)))
    case (WriteTmpFailed, Persisting(day, es, todo, cutoff, removed)) =>
      Some(s.(disk := s.disk.(tmp := Corrupt), host := h.(sweeping := Scanning(todo, cutoff, removed))))
    case (WriteTmpFailed, SettlePersisting) =>
      Some(s.(disk := s.disk.(tmp := Corrupt), host := h.(sweeping := Idle)))
    case (Rename, Renaming(day, es, todo, cutoff, removed)) =>
      Some(s.(disk := s.disk.(baseline := s.disk.tmp, tmp := Missing),
              host := h.(sweeping := Unlinking(day, es, todo, cutoff, removed))))
    case (Rename, SettleRenaming) =>
      Some(s.(disk := s.disk.(baseline := s.disk.tmp, tmp := Missing), host := h.(sweeping := Idle)))
    case (RenameFailed, Renaming(day, es, todo, cutoff, removed)) =>
      Some(s.(host := h.(sweeping := Scanning(todo, cutoff, removed))))
    case (RenameFailed, SettleRenaming) => Some(s.(host := h.(sweeping := Idle)))
    case (Remove, Unlinking(day, es, todo, cutoff, removed)) =>
      Some(s.(disk := s.disk.(log := Unlink(s.disk.log, day)),
              gone := s.gone + Keys(EventsOf(s.disk.log, day)),
              host := h.(sweeping := Forgetting(day, es, todo, cutoff, removed))))
    case (RemoveFailed, Unlinking(_, _, _, _, _)) => Some(s.(host := h.(sweeping := Idle)))
    case (Forget, Forgetting(day, es, todo, cutoff, removed)) =>
      Some(s.(host := h.(mem := m.(seen := m.seen - Keys(es)), sweeping := Scanning(todo, cutoff, removed + {day}))))
    case _ => None
  }

  /** One turn of the sweep's loop up to its next disk effect, or the settling after the last turn. */
  function Visit(h: Host, log: Log, todo: seq<int>, cutoff: int, removed: set<int>): Host
    requires h.Up?
  {
    var m := h.mem;
    if todo == [] then
      if removed * m.folded == {} then h.(sweeping := Idle)
      else h.(mem := m.(folded := m.folded - removed), sweeping := SettlePersisting)
    else
      var day, rest := todo[0], todo[1..];
      var es := EventsOf(log, day);
      if SegmentEnd(day) > cutoff then h.(sweeping := Scanning(rest, cutoff, removed))
      else if day in m.folded then h.(sweeping := Unlinking(day, es, rest, cutoff, removed))
      else h.(mem := m.(baseline := CountAll(m.baseline, es), folded := m.folded + {day}),
              sweeping := Persisting(day, es, rest, cutoff, removed))
  }

  /** A whole run, oldest action first. */
  function Run(s: State, actions: seq<Action>): Option<State> {
    if actions == [] then Some(s)
    else
      var before := Run(s, actions[..|actions| - 1]);
      if before.None? then None else Step(before.value, actions[|actions| - 1])
  }
}

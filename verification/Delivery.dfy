/**
 * One guest's plays from the moment they are measured to the host's log: its outbox, a network
 * that may lose any request or answer, and the host of the retention machine with its crashes,
 * restarts and sweeps. `minted`, `dropped` and `rejected` only observe the run.
 */
module Delivery {
  import opened Wrappers
  import opened PlayTotals
  import opened EventLog
  import opened Retention
  import opened RetentionSafety
  import opened EventIngest
  import opened EventQueue

  /** The guest's identity, and which texts parse as dates. */
  datatype Setting = Setting(me: string, parses: string -> bool)

  datatype Message =
    | Request(batch: Queue)
    | Answered(batch: Queue, answer: Answer)
    | Refused(batch: Queue)

  /** A request of ours whose append the host is writing. */
  datatype Serving = Serving(batch: Queue, duplicates: seq<string>, rejected: seq<Rejection>)

  datatype World = World(
    host: State,
    serving: Option<Serving>,
    replies: seq<Message>,
    net: seq<Message>,
    queue: Queue,
    minted: seq<PlaybackEvent>,
    dropped: set<string>,
    rejected: set<string>)

  datatype Move =
    | Mint(event: PlaybackEvent)
    | Flush
    | Lose(index: nat)
    | Serve(index: nat, known: string -> bool, now: int)
    | Refuse(index: nat)
    | Reply(index: nat)
    | Receive(index: nat)
    /** Anything else the host does, other guests' batches included. */
    | HostMove(action: Action)

  const Start := World(Initial, None, [], [], [], [], {}, {})

  /** A guest's event as it crosses the wire. */
  function OnWire(e: PlaybackEvent): Candidate {
    Fields(Text(e.id), Text("play"), Text(e.recordingUrl), Number(e.completion), Text(e.occurredAt),
           if e.deviceId.Some? then Text(e.deviceId.value) else Absent)
  }

  function BatchOnWire(q: Queue): seq<Candidate> {
    seq(|q|, i requires 0 <= i < |q| => OnWire(q[i]))
  }

  /** The event as the log holds it. */
  function AsStored(e: PlaybackEvent): PlaybackEvent {
    e.(completion := Clamp(e.completion))
  }

  function Drop<T>(s: seq<T>, i: nat): seq<T>
    requires i < |s|
  {
    s[..i] + s[i + 1..]
  }

  predicate IsMine(set_: Setting, e: PlaybackEvent) {
    e.deviceId == Some(set_.me)
  }

  /** An id minted here is new, and like a uuid it has no NUL. */
  predicate MayMint(c: Setting, w: World, e: PlaybackEvent) {
    IsMine(c, e) && e.id != "" && '\0' !in e.id && forall m :: m in w.minted ==> m.id != e.id
  }

  function Next(c: Setting, w: World, m: Move): Option<World> {
    match m
    case Mint(e) =>
      if !MayMint(c, w, e) then None
      else
        var q := w.queue + [e];
        Some(w.(queue := Capped(q, MAX_QUEUED_EVENTS), minted := w.minted + [e],
                dropped := w.dropped + IdsOf(Overflow(q, MAX_QUEUED_EVENTS))))
    case Flush => if w.queue == [] then None else Some(w.(net := w.net + [Request(w.queue)]))
    case Lose(i) => if i >= |w.net| then None else Some(w.(net := Drop(w.net, i)))
    case Serve(i, known, now) => if i >= |w.net| || !w.net[i].Request? then None else AfterServe(c, w, i, known, now)
    case Refuse(i) =>
      if i >= |w.net| || !w.net[i].Request? then None
      else Some(w.(net := Drop(w.net, i) + [Refused(w.net[i].batch)]))
    case Reply(i) =>
      if i >= |w.replies| then None
      else Some(w.(net := w.net + [w.replies[i]], replies := Drop(w.replies, i)))
    case Receive(i) =>
      if i >= |w.net| then None
      else
        match w.net[i] {
          case Request(_) => None
          case Answered(batch, answer) =>
            Some(w.(net := Drop(w.net, i), queue := AfterAnswer(w.queue, batch, answer)))
          case Refused(_) => Some(w.(net := Drop(w.net, i), queue := [], dropped := w.dropped + IdsOf(w.queue)))
        }
    case HostMove(a) => AfterHostMove(c, w, a)
  }

  function AfterServe(c: Setting, w: World, i: nat, known: string -> bool, now: int): (r: Option<World>)
    requires i < |w.net| && w.net[i].Request?
    ensures r.Some? <==>
      Step(w.host, BeginAppend(Sort(BatchOnWire(w.net[i].batch), c.parses, known).valid, now)).Some?
  {
    var batch := w.net[i].batch;
    var sorted := Sort(BatchOnWire(batch), c.parses, known);
    var host := Step(w.host, BeginAppend(sorted.valid, now));
    if host.None? then None
    else
      var v := EventLog.Judge(w.host.host.mem.seen, sorted.valid, now);
      var u := w.(host := host.value, net := Drop(w.net, i),
        rejected := w.rejected + FinallyRejected(batch, sorted.rejected));
      if v.accepted == [] then
        Some(u.(replies := w.replies + [Answered(batch, Answer([], v.duplicates, sorted.rejected))]))
      else Some(u.(serving := Some(Serving(batch, v.duplicates, sorted.rejected))))
  }

  function AfterHostMove(c: Setting, w: World, a: Action): Option<World> {
    var host := Step(w.host, a);
    if host.None? || (a.BeginAppend? && exists e :: e in a.batch && IsMine(c, e)) then None
    else
      var u := w.(host := host.value);
      if a.Crash? then Some(u.(serving := None, replies := []))
      else if a.AppendFailed? then Some(u.(serving := None))
      else if a.AppendWritten? && w.serving.Some? && w.host.host.Up? && w.host.host.appending.Writing? then
        var s := w.serving.value;
        Some(u.(serving := None,
                replies := w.replies + [Answered(s.batch, Answer(Ids(w.host.host.appending.accepted), s.duplicates,
                  s.rejected))]))
      else Some(u)
  }

  function Play(c: Setting, moves: seq<Move>): Option<World> {
    if moves == [] then Some(Start)
    else
      var before := Play(c, moves[..|moves| - 1]);
      if before.None? then None else Next(c, before.value, moves[|moves| - 1])
  }

  // ----- What every run keeps -----

  ghost predicate Held(w: World, e: PlaybackEvent) {
    exists h :: h in w.host.history && h.event == AsStored(e)
  }

  /** Where a minted play can be: queued, counted as it was measured, or given up for a stated reason. */
  ghost predicate Accounted(w: World, e: PlaybackEvent) {
    e in w.queue || Held(w, e) || e.id in w.rejected || e.id in w.dropped
  }

  ghost predicate Writes(w: World, e: PlaybackEvent) {
    w.host.host.Up? && w.host.host.appending.Writing?
    && exists h :: h in w.host.host.appending.accepted && h.event == AsStored(e)
  }

  ghost predicate FromBatch(w: World, batch: Queue) {
    forall e :: e in batch ==> e in w.minted
  }

  ghost predicate HeldId(w: World, batch: Queue, id: string) {
    exists e :: e in batch && e.id == id && Held(w, e)
  }

  ghost predicate HeldOrWrittenId(w: World, batch: Queue, id: string) {
    exists e :: e in batch && e.id == id && (Held(w, e) || Writes(w, e))
  }

  /** An answer only settles what the host has in its log, or has finally rejected. */
  ghost predicate Honest(w: World, m: Message) {
    && FromBatch(w, m.batch)
    && (m.Answered? ==>
      && (forall id :: id in m.answer.accepted || id in m.answer.duplicates ==> HeldId(w, m.batch, id))
      && FinallyRejected(m.batch, m.answer.rejected) <= w.rejected)
  }

  ghost predicate Mine(c: Setting, w: World, h: StoredEvent) {
    IsMine(c, h.event) ==> exists e :: e in w.minted && h.event == AsStored(e)
  }

  ghost predicate GuestInv(c: Setting, w: World) {
    && (forall e :: e in w.minted ==> IsMine(c, e) && e.id != "" && '\0' !in e.id)
    && (forall i, j :: 0 <= i < j < |w.minted| ==> w.minted[i].id != w.minted[j].id)
    && FromBatch(w, w.queue) && |w.queue| <= MAX_QUEUED_EVENTS
    && (forall e :: e in w.minted ==> Accounted(w, e))
  }

  ghost predicate LogInv(c: Setting, w: World) {
    && (forall h :: h in w.host.history ==> Mine(c, w, h))
    && (w.host.host.Up? && w.host.host.appending.Writing? ==>
      forall h :: h in w.host.host.appending.accepted ==> Mine(c, w, h))
  }

  ghost predicate ServingInv(w: World) {
    w.serving.Some? ==>
      var s := w.serving.value;
      && w.host.host.Up? && w.host.host.appending.Writing?
      && FromBatch(w, s.batch)
      && (forall id :: id in s.duplicates || id in Ids(w.host.host.appending.accepted) ==>
        HeldOrWrittenId(w, s.batch, id))
      && FinallyRejected(s.batch, s.rejected) <= w.rejected
  }

  ghost predicate NetInv(w: World) {
    (forall m :: m in w.net ==> Honest(w, m)) && (forall m :: m in w.replies ==> m.Answered? && Honest(w, m))
  }

  ghost predicate WorldInv(c: Setting, w: World) {
    Inv(w.host) && GuestInv(c, w) && LogInv(c, w) && ServingInv(w) && NetInv(w)
  }
}

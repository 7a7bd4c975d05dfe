/** Every run of the delivery machine accounts for every play, and counts it as it was measured. */
module DeliverySafety {
  import opened Wrappers
  import opened PlayTotals
  import opened EventLog
  import opened Retention
  import opened RetentionSafety
  import RetentionTheorems
  import opened EventIngest
  import opened EventQueue
  import opened Delivery

  /** A device id the dedupe key cannot confuse, such as the uuid a guest mints. */
  predicate PlainDevice(c: Setting) {
    c.me != "" && c.me != "unknown" && '\0' !in c.me
  }

  ghost predicate CarefulMove(w: World, m: Move) {
    m.HostMove? ==> Careful(w.host, m.action)
  }

  ghost predicate CarefulPlay(c: Setting, moves: seq<Move>) {
    forall i :: 0 <= i < |moves| ==>
      var before := Play(c, moves[..i]);
      before.Some? ==> CarefulMove(before.value, moves[i])
  }

  /** What no move takes back. */
  ghost predicate Grown(w: World, v: World) {
    && (forall h :: h in w.host.history ==> h in v.host.history)
    && (forall e :: e in w.minted ==> e in v.minted)
    && w.dropped <= v.dropped && w.rejected <= v.rejected
  }

  lemma HeldGrows(w: World, v: World, e: PlaybackEvent)
    requires Grown(w, v) && Held(w, e)
    ensures Held(v, e)
  {
    var h :| h in w.host.history && h.event == AsStored(e);
    assert h in v.host.history;
  }

  lemma HonestGrows(w: World, v: World, m: Message)
    requires Grown(w, v) && Honest(w, m)
    ensures Honest(v, m)
  {
    if m.Answered? {
      forall id | id in m.answer.accepted || id in m.answer.duplicates
        ensures HeldId(v, m.batch, id)
      {
        var e :| e in m.batch && e.id == id && Held(w, e);
        HeldGrows(w, v, e);
      }
    }
  }

  lemma NetGrows(w: World, v: World)
    requires Grown(w, v) && NetInv(w)
    requires forall m :: m in v.net ==> m in w.net || Honest(v, m)
    requires forall m :: m in v.replies ==> m in w.replies || (m.Answered? && Honest(v, m))
    ensures NetInv(v)
  {
    forall m | m in v.net + v.replies && (m in w.net || m in w.replies)
      ensures Honest(v, m)
    {
      HonestGrows(w, v, m);
    }
  }

  lemma GuestGrows(c: Setting, w: World, v: World)
    requires Grown(w, v) && GuestInv(c, w)
    requires v.minted == w.minted && v.queue == w.queue
    ensures GuestInv(c, v)
  {
    forall e | e in v.minted
      ensures Accounted(v, e)
    {
      assert Accounted(w, e);
      if Held(w, e) {
        HeldGrows(w, v, e);
      }
    }
  }

  lemma MintedOnce(c: Setting, w: World, a: PlaybackEvent, b: PlaybackEvent)
    requires GuestInv(c, w) && a in w.minted && b in w.minted && a.id == b.id
    ensures a == b
  {
    var i :| 0 <= i < |w.minted| && w.minted[i] == a;
    var j :| 0 <= j < |w.minted| && w.minted[j] == b;
    assert i == j;
  }

  lemma DropMembers<T>(s: seq<T>, i: nat)
    requires i < |s|
    ensures forall x :: x in Drop(s, i) ==> x in s
  {
  }

  lemma MintInv(c: Setting, w: World, v: World, e: PlaybackEvent)
    requires WorldInv(c, w) && Next(c, w, Mint(e)) == Some(v)
    ensures WorldInv(c, v)
  {
    var q := w.queue + [e];
    CapFacts(q, MAX_QUEUED_EVENTS);
    assert q == Overflow(q, MAX_QUEUED_EVENTS) + v.queue;
    assert Grown(w, v);
    NetGrows(w, v);
    forall x | x in v.minted
      ensures Accounted(v, x)
    {
      if x in q {
        assert x in v.queue || x.id in IdsOf(Overflow(q, MAX_QUEUED_EVENTS));
      } else {
        assert Accounted(w, x);
        if Held(w, x) {
          HeldGrows(w, v, x);
        }
      }
    }
    LogGrows(c, w, v);
    ServingGrows(w, v);
  }

  lemma LogGrows(c: Setting, w: World, v: World)
    requires LogInv(c, w) && v.host == w.host && forall e :: e in w.minted ==> e in v.minted
    ensures LogInv(c, v)
  {
    forall h | h in v.host.history
      ensures Mine(c, v, h)
    {
      assert Mine(c, w, h);
    }
    if v.host.host.Up? && v.host.host.appending.Writing? {
      forall h | h in v.host.host.appending.accepted
        ensures Mine(c, v, h)
      {
        assert Mine(c, w, h);
      }
    }
  }

  lemma ServingGrows(w: World, v: World)
    requires ServingInv(w) && v.serving == w.serving && v.host == w.host && Grown(w, v)
    ensures ServingInv(v)
  {
    if v.serving.Some? {
      var s := v.serving.value;
      forall id | id in s.duplicates || id in Ids(v.host.host.appending.accepted)
        ensures HeldOrWrittenId(v, s.batch, id)
      {
        var e :| e in s.batch && e.id == id && (Held(w, e) || Writes(w, e));
        assert Held(v, e) || Writes(v, e);
      }
    }
  }

  /** Moves of the network alone. */
  lemma NetMoveInv(c: Setting, w: World, m: Move, v: World)
    requires WorldInv(c, w) && Next(c, w, m) == Some(v)
    requires m.Flush? || m.Lose? || m.Refuse? || m.Reply?
    ensures WorldInv(c, v)
  {
    if m.Lose? || m.Refuse? {
      DropMembers(w.net, m.index);
    }
    if m.Reply? {
      DropMembers(w.replies, m.index);
      HonestGrows(w, v, w.replies[m.index]);
    }
    if m.Refuse? {
      assert Honest(w, w.net[m.index]);
      assert Honest(v, Refused(w.net[m.index].batch));
    }
    if m.Flush? {
      assert Honest(v, Request(w.queue));
    }
    assert Grown(w, v);
    NetGrows(w, v);
    GuestGrows(c, w, v);
    LogGrows(c, w, v);
    ServingGrows(w, v);
  }

  /** The outbox forgets only what the log holds or the host has finally rejected. */
  lemma ReceiveInv(c: Setting, w: World, v: World, i: nat)
    requires WorldInv(c, w) && Next(c, w, Receive(i)) == Some(v)
    ensures WorldInv(c, v)
  {
    DropMembers(w.net, i);
    assert Grown(w, v);
    NetGrows(w, v);
    LogGrows(c, w, v);
    ServingGrows(w, v);
    var m := w.net[i];
    assert Honest(w, m);
    if m.Answered? {
      AfterAnswerFacts(w.queue, m.batch, m.answer);
    }
    forall e | e in v.minted
      ensures Accounted(v, e)
    {
      assert Accounted(w, e);
      if e in w.queue && e !in v.queue && m.Answered? {
        SettledIsAccounted(c, w, m, e);
      }
      if Held(w, e) {
        HeldGrows(w, v, e);
      }
    }
  }

  lemma SettledIsAccounted(c: Setting, w: World, m: Message, e: PlaybackEvent)
    requires GuestInv(c, w) && Honest(w, m) && m.Answered? && e in w.minted
    requires e.id in Settled(m.batch, m.answer)
    ensures Held(w, e) || e.id in w.rejected
  {
    if e.id in m.answer.accepted || e.id in m.answer.duplicates {
      var b :| b in m.batch && b.id == e.id && Held(w, b);
      MintedOnce(c, w, b, e);
    }
  }

  /** What validation makes of our own events. */
  lemma OursOnWire(c: Setting, q: Queue, x: Candidate) returns (b: PlaybackEvent)
    requires PlainDevice(c) && (forall e :: e in q ==> IsMine(c, e) && e.id != "")
    requires x in BatchOnWire(q)
    ensures b in q && x == OnWire(b)
    ensures Validate(x, c.parses).Valid? ==> Validate(x, c.parses).event == AsStored(b)
  {
    var i :| 0 <= i < |BatchOnWire(q)| && BatchOnWire(q)[i] == x;
    b := q[i];
  }

  lemma ValidIsOurs(c: Setting, w: World, q: Queue, known: string -> bool, x: PlaybackEvent) returns (b: PlaybackEvent)
    requires PlainDevice(c) && GuestInv(c, w) && FromBatch(w, q)
    requires x in Sort(BatchOnWire(q), c.parses, known).valid
    ensures b in q && x == AsStored(b)
  {
    SortFacts(BatchOnWire(q), c.parses, known);
    var k :| k in BatchOnWire(q) && Validate(k, c.parses) == Valid(x) && known(x.recordingUrl);
    b := OursOnWire(c, q, k);
  }

  /** Between appends, every key in the index belongs to an event that reached the log. */
  lemma SeenIsHistory(s: State, key: string) returns (h: StoredEvent)
    requires Inv(s) && s.host.Up? && s.host.appending.Quiet? && key in s.host.mem.seen
    ensures h in s.history && DedupeKey(h.event) == key
  {
    assert key in Keys(s.history);
    h :| h in s.history && DedupeKey(h.event) == key;
  }

  lemma DuplicateIsHeld(c: Setting, w: World, b: PlaybackEvent)
    requires PlainDevice(c) && WorldInv(c, w) && b in w.minted
    requires w.host.host.Up? && w.host.host.appending.Quiet? && DedupeKey(AsStored(b)) in w.host.host.mem.seen
    ensures Held(w, b)
  {
    var h := SeenIsHistory(w.host, DedupeKey(AsStored(b)));
    DedupeKeyIsInjective(AsStored(b), h.event);
    assert Mine(c, w, h);
    var e :| e in w.minted && h.event == AsStored(e);
    MintedOnce(c, w, b, e);
  }

  /** What `v` has in hand once the host of `w` judged a batch of ours. */
  ghost predicate Judged(c: Setting, w: World, v: World, batch: Queue, valid: seq<PlaybackEvent>, j: Verdict) {
    && w.host.host.Up? && w.host.host.appending.Quiet? && Grown(w, v)
    && FromBatch(w, batch)
    && (forall x :: x in valid ==> exists b :: b in batch && x == AsStored(b))
    && (j.accepted != [] ==>
      v.host.host.Up? && v.host.host.appending.Writing? && v.host.host.appending.accepted == j.accepted)
  }

  lemma JudgedAnswer(c: Setting, w: World, v: World, batch: Queue, valid: seq<PlaybackEvent>, now: int, id: string)
    requires PlainDevice(c) && WorldInv(c, w) && w.host.host.Up?
    requires var j := EventLog.Judge(w.host.host.mem.seen, valid, now);
      Judged(c, w, v, batch, valid, j) && (id in j.duplicates || id in Ids(j.accepted))
    ensures HeldOrWrittenId(v, batch, id)
  {
    var seen := w.host.host.mem.seen;
    var j := EventLog.Judge(seen, valid, now);
    JudgeFacts(seen, valid, now);
    var x: PlaybackEvent;
    if id in Ids(j.accepted) {
      var k :| 0 <= k < |j.accepted| && Ids(j.accepted)[k] == id;
      assert j.accepted[k] in j.accepted;
      x := j.accepted[k].event;
    } else {
      x :| x in valid && x.id == id && DedupeKey(x) in seen + Keys(j.accepted);
    }
    var b :| b in batch && x == AsStored(b);
    if DedupeKey(x) in Keys(j.accepted) {
      var h :| h in j.accepted && DedupeKey(h.event) == DedupeKey(x);
      var b' :| b' in batch && h.event == AsStored(b');
      DedupeKeyIsInjective(x, h.event);
      assert Writes(v, b');
    } else {
      DuplicateIsHeld(c, w, b);
      HeldGrows(w, v, b);
    }
  }

  lemma JudgedLog(c: Setting, w: World, v: World, batch: Queue, valid: seq<PlaybackEvent>, now: int)
    requires WorldInv(c, w) && w.host.host.Up?
    requires Judged(c, w, v, batch, valid, EventLog.Judge(w.host.host.mem.seen, valid, now))
    requires v.host.history == w.host.history
    requires v.host.host.Up? && v.host.host.appending.Writing? ==>
      EventLog.Judge(w.host.host.mem.seen, valid, now).accepted != []
    ensures LogInv(c, v)
  {
    JudgeFacts(w.host.host.mem.seen, valid, now);
    forall h | h in w.host.history
      ensures Mine(c, v, h)
    {
      assert Mine(c, w, h);
    }
    if v.host.host.Up? && v.host.host.appending.Writing? {
      forall h | h in v.host.host.appending.accepted
        ensures Mine(c, v, h)
      {
        var b :| b in batch && h.event == AsStored(b);
        assert b in v.minted;
      }
    }
  }

  /** The facts about a served request that the invariant needs. */
  lemma ServeShape(c: Setting, w: World, v: World, i: nat, known: string -> bool, now: int)
      returns (batch: Queue, sorted: EventIngest.Sorted, j: Verdict)
    requires Next(c, w, Serve(i, known, now)) == Some(v)
    ensures i < |w.net| && batch == w.net[i].batch && sorted == Sort(BatchOnWire(batch), c.parses, known)
    ensures w.host.host.Up? && w.host.host.appending.Quiet?
    ensures j == EventLog.Judge(w.host.host.mem.seen, sorted.valid, now)
    ensures Step(w.host, BeginAppend(sorted.valid, now)) == Some(v.host) && v.host.history == w.host.history
    ensures Grown(w, v) && v.minted == w.minted && v.queue == w.queue && v.net == Drop(w.net, i)
    ensures FinallyRejected(batch, sorted.rejected) <= v.rejected
    ensures j.accepted == [] ==>
      && v.serving == w.serving && v.host.host == w.host.host
      && v.replies == w.replies + [Answered(batch, Answer([], j.duplicates, sorted.rejected))]
    ensures j.accepted != [] ==>
      && v.serving == Some(Serving(batch, j.duplicates, sorted.rejected)) && v.replies == w.replies
      && v.host.host.Up? && v.host.host.appending == Writing(j.accepted, DayOf(now))
  {
    batch := w.net[i].batch;
    sorted := Sort(BatchOnWire(batch), c.parses, known);
    j := EventLog.Judge(w.host.host.mem.seen, sorted.valid, now);
  }

  lemma ServeInv(c: Setting, w: World, v: World, i: nat, known: string -> bool, now: int)
    requires PlainDevice(c) && WorldInv(c, w) && Next(c, w, Serve(i, known, now)) == Some(v)
    ensures WorldInv(c, v)
  {
    var batch, sorted, j := ServeShape(c, w, v, i, known, now);
    assert Honest(w, w.net[i]);
    StepInv(w.host, BeginAppend(sorted.valid, now), v.host);
    forall x | x in sorted.valid
      ensures exists b :: b in batch && x == AsStored(b)
    {
      var b := ValidIsOurs(c, w, batch, known, x);
    }
    JudgedInv(c, w, v, batch, sorted, j, now);
    DropMembers(w.net, i);
    if j.accepted == [] {
      HeldWhenNothingIsWritten(v, batch, j.duplicates);
    }
    NetGrows(w, v);
  }

  lemma HeldWhenNothingIsWritten(v: World, batch: Queue, ids: seq<string>)
    requires !(v.host.host.Up? && v.host.host.appending.Writing?)
    requires forall id :: id in ids ==> HeldOrWrittenId(v, batch, id)
    ensures forall id :: id in ids ==> HeldId(v, batch, id)
  {
    forall id | id in ids
      ensures HeldId(v, batch, id)
    {
      var e :| e in batch && e.id == id && (Held(v, e) || Writes(v, e));
    }
  }

  lemma JudgedInv(c: Setting, w: World, v: World, batch: Queue, sorted: EventIngest.Sorted, j: Verdict, now: int)
    requires PlainDevice(c) && WorldInv(c, w) && w.host.host.Up?
    requires j == EventLog.Judge(w.host.host.mem.seen, sorted.valid, now) && Judged(c, w, v, batch, sorted.valid, j)
    requires v.minted == w.minted && v.queue == w.queue && v.host.history == w.host.history
    requires j.accepted == [] ==> v.serving == w.serving && v.host.host == w.host.host
    requires j.accepted != [] ==> v.serving == Some(Serving(batch, j.duplicates, sorted.rejected))
    requires FinallyRejected(batch, sorted.rejected) <= v.rejected
    ensures GuestInv(c, v) && LogInv(c, v) && ServingInv(v)
    ensures forall id :: id in j.duplicates ==> HeldOrWrittenId(v, batch, id)
  {
    GuestGrows(c, w, v);
    JudgedLog(c, w, v, batch, sorted.valid, now);
    forall id | id in j.duplicates || id in Ids(j.accepted)
      ensures HeldOrWrittenId(v, batch, id)
    {
      JudgedAnswer(c, w, v, batch, sorted.valid, now, id);
    }
  }

  /** A step of the host adds to the log only what was being written. */
  lemma StepHistory(s: State, a: Action, t: State)
    requires Step(s, a) == Some(t)
    ensures s.history <= t.history
    ensures forall h :: h in t.history ==>
      h in s.history || (s.host.Up? && s.host.appending.Writing? && h in s.host.appending.accepted)
    ensures a.AppendWritten? ==> t.history == s.history + s.host.appending.accepted
    ensures t.host.Up? && t.host.appending.Writing? && !a.BeginAppend? ==>
      s.host.Up? && t.host.appending == s.host.appending
    ensures
      s.host.Up? && s.host.appending.Writing?
      && !a.BeginAppend? && !a.AppendWritten? && !a.AppendFailed? && !a.Crash? ==>
      t.host.Up? && t.host.appending == s.host.appending
  {
  }

  /** Whatever else the host does, it brings no play of this guest and mints none. */
  lemma HostMoveFacts(c: Setting, w: World, a: Action, v: World)
    requires Next(c, w, HostMove(a)) == Some(v)
    ensures Step(w.host, a) == Some(v.host) && v.minted == w.minted
    ensures a.BeginAppend? ==> forall e :: e in a.batch ==> !IsMine(c, e)
  {
  }

  /** What a batch may write is a part of it. */
  lemma BeginAppendWrites(s: State, a: Action, t: State)
    requires a.BeginAppend? && Step(s, a) == Some(t) && t.host.Up? && t.host.appending.Writing?
    ensures s.host.Up?
    ensures t.host.appending == s.host.appending || forall h :: h in t.host.appending.accepted ==> h.event in a.batch
  {
    JudgeFacts(s.host.mem.seen, a.batch, a.now);
  }

  lemma HostLog(c: Setting, w: World, a: Action, v: World)
    requires WorldInv(c, w) && Next(c, w, HostMove(a)) == Some(v)
    ensures LogInv(c, v)
  {
    HostMoveFacts(c, w, a, v);
    StepHistory(w.host, a, v.host);
    if a.BeginAppend? && v.host.host.Up? && v.host.host.appending.Writing? {
      BeginAppendWrites(w.host, a, v.host);
    }
    LogStays(c, w, a, v);
  }

  lemma LogStays(c: Setting, w: World, a: Action, v: World)
    requires LogInv(c, w) && v.minted == w.minted && (a.BeginAppend? ==> forall e :: e in a.batch ==> !IsMine(c, e))
    requires forall h :: h in v.host.history ==> Came(w, h)
    requires v.host.host.Up? && v.host.host.appending.Writing? ==>
      || (w.host.host.Up? && v.host.host.appending == w.host.host.appending)
      || (a.BeginAppend? && forall h :: h in v.host.host.appending.accepted ==> h.event in a.batch)
    ensures LogInv(c, v)
  {
    forall h | Mine(c, w, h)
      ensures Mine(c, v, h)
    {
    }
  }

  /** In the log before, or being written then. */
  ghost predicate Came(w: World, h: StoredEvent) {
    h in w.host.history || (w.host.host.Up? && w.host.host.appending.Writing? && h in w.host.host.appending.accepted)
  }

  /** Once written, what was being served is held. */
  lemma ServedIsHeld(w: World, a: Action, v: World, batch: Queue, id: string)
    requires Step(w.host, a) == Some(v.host) && Grown(w, v) && HeldOrWrittenId(w, batch, id)
    ensures a.AppendWritten? ==> HeldId(v, batch, id)
    ensures w.host.host.Up? && v.host.host.Up? && v.host.host.appending == w.host.host.appending ==>
      HeldOrWrittenId(v, batch, id)
  {
    StepHistory(w.host, a, v.host);
    var e :| e in batch && e.id == id && (Held(w, e) || Writes(w, e));
    if Held(w, e) {
      HeldGrows(w, v, e);
    } else {
      var h :| h in w.host.host.appending.accepted && h.event == AsStored(e);
      if a.AppendWritten? {
        assert h in v.host.history;
        assert Held(v, e);
      } else if v.host.host.Up? && v.host.host.appending == w.host.host.appending {
        assert Writes(v, e);
      }
    }
  }

  lemma HostMoveHeld(c: Setting, w: World, a: Action, v: World)
    requires ServingInv(w) && Next(c, w, HostMove(a)) == Some(v) && w.serving.Some?
    ensures forall id :: id in w.serving.value.duplicates || id in Ids(w.host.host.appending.accepted) ==>
      && (a.AppendWritten? ==> HeldId(v, w.serving.value.batch, id))
      && (v.serving.Some? ==> HeldOrWrittenId(v, w.serving.value.batch, id))
  {
    var s := w.serving.value;
    StepHistory(w.host, a, v.host);
    forall id | id in s.duplicates || id in Ids(w.host.host.appending.accepted)
      ensures a.AppendWritten? ==> HeldId(v, s.batch, id)
      ensures v.serving.Some? ==> HeldOrWrittenId(v, s.batch, id)
    {
      ServedIsHeld(w, a, v, s.batch, id);
    }
  }

  lemma HostMoveServing(c: Setting, w: World, a: Action, v: World)
    requires ServingInv(w) && Next(c, w, HostMove(a)) == Some(v) && w.serving.Some?
    ensures ServingInv(v)
  {
    HostMoveHeld(c, w, a, v);
  }

  lemma HostMoveReplies(c: Setting, w: World, a: Action, v: World)
    requires ServingInv(w) && Next(c, w, HostMove(a)) == Some(v) && w.serving.Some?
    ensures forall m :: m in v.replies ==> m in w.replies || (m.Answered? && Honest(v, m))
  {
    HostMoveHeld(c, w, a, v);
  }

  lemma HostMoveInv(c: Setting, w: World, a: Action, v: World)
    requires WorldInv(c, w) && Careful(w.host, a) && Next(c, w, HostMove(a)) == Some(v)
    ensures WorldInv(c, v)
  {
    StepInv(w.host, a, v.host);
    StepHistory(w.host, a, v.host);
    GuestGrows(c, w, v);
    HostLog(c, w, a, v);
    if w.serving.Some? {
      HostMoveServing(c, w, a, v);
      HostMoveReplies(c, w, a, v);
    }
    NetGrows(w, v);
  }

  lemma NextInv(c: Setting, w: World, m: Move, v: World)
    requires PlainDevice(c) && WorldInv(c, w) && CarefulMove(w, m) && Next(c, w, m) == Some(v)
    ensures WorldInv(c, v)
  {
    match m
    case Mint(e) => MintInv(c, w, v, e);
    case Serve(i, known, now) => ServeInv(c, w, v, i, known, now);
    case Receive(i) => ReceiveInv(c, w, v, i);
    case HostMove(a) => HostMoveInv(c, w, a, v);
    case _ => NetMoveInv(c, w, m, v);
  }

  lemma {:induction false} PlayInv(c: Setting, moves: seq<Move>)
    requires PlainDevice(c) && CarefulPlay(c, moves) && Play(c, moves).Some?
    ensures WorldInv(c, Play(c, moves).value)
  {
    if moves != [] {
      var n := |moves| - 1;
      forall i | 0 <= i < n
        ensures var before := Play(c, moves[..n][..i]);
          before.Some? ==> CarefulMove(before.value, moves[..n][i])
      {
        assert moves[..n][..i] == moves[..i];
      }
      PlayInv(c, moves[..n]);
      NextInv(c, Play(c, moves[..n]).value, moves[n], Play(c, moves).value);
    }
  }

  /**
   * End to end. Through lost requests, lost answers, crashes, restarts and sweeps, every play a
   * guest measured is still queued, or in the host's log or baseline exactly as measured, or was
   * finally rejected, or was dropped by the cap or a refusal. The queue always fits one request.
   */
  lemma EveryPlayIsAccountedFor(c: Setting, moves: seq<Move>, e: PlaybackEvent)
    requires PlainDevice(c) && CarefulPlay(c, moves) && Play(c, moves).Some?
    requires e in Play(c, moves).value.minted
    ensures Accounted(Play(c, moves).value, e)
    ensures |Play(c, moves).value.queue| <= MAX_BATCH_EVENTS
  {
    PlayInv(c, moves);
  }

  // ---- A proper play is taken ----

  /** A host can count it: its recording's URL has the shape of one, and its time parses. */
  ghost predicate Proper(c: Setting, e: PlaybackEvent) {
    ProperUrl(e.recordingUrl) && c.parses(e.occurredAt)
  }

  /** A play with an id passes the route as it was measured exactly when it is proper, and else is malformed. */
  lemma ProperIsValid(c: Setting, e: PlaybackEvent)
    requires e.id != "" && e.deviceId != Some("")
    ensures Validate(OnWire(e), c.parses) == Valid(AsStored(e)) <==> Proper(c, e)
    ensures !Proper(c, e) ==> Validate(OnWire(e), c.parses) == Malformed(Some(e.id))
  {
    ValidIff(OnWire(e), c.parses, AsStored(e));
    UrlShape(e.recordingUrl);
  }

  /** What was finally rejected is a minted play that is not proper. */
  ghost predicate RejectedInv(c: Setting, w: World) {
    forall id :: id in w.rejected ==> exists e :: e in w.minted && e.id == id && !Proper(c, e)
  }

  lemma RejectionIsOfImproper(c: Setting, w: World, batch: Queue, known: string -> bool, id: string)
    requires PlainDevice(c) && GuestInv(c, w) && FromBatch(w, batch)
    requires id in FinallyRejected(batch, Sort(BatchOnWire(batch), c.parses, known).rejected)
    ensures exists e :: e in w.minted && e.id == id && !Proper(c, e)
  {
    var sent, sorted := BatchOnWire(batch), Sort(BatchOnWire(batch), c.parses, known);
    SortFacts(sent, c.parses, known);
    FinallyRejectedIff(batch, sorted.rejected, id);
    var r :| r in sorted.rejected && RejectsForGood(batch, r, id);
    var e := batch[r.index];
    assert e in batch && RejectionIsFair(OnWire(e), r, c.parses, known);
    ProperIsValid(c, e);
  }

  lemma MintedStays(c: Setting, w: World, m: Move, v: World)
    requires Next(c, w, m) == Some(v)
    ensures forall e :: e in w.minted ==> e in v.minted
  {
  }

  lemma RejectedNext(c: Setting, w: World, m: Move, v: World)
    requires PlainDevice(c) && WorldInv(c, w) && RejectedInv(c, w) && Next(c, w, m) == Some(v)
    ensures RejectedInv(c, v)
  {
    MintedStays(c, w, m, v);
    forall id | id in v.rejected
      ensures exists e :: e in v.minted && e.id == id && !Proper(c, e)
    {
      if id in w.rejected {
        var e :| e in w.minted && e.id == id && !Proper(c, e);
        assert e in v.minted;
      } else {
        RejectedByServing(c, w, m, v, id);
      }
    }
  }

  lemma RejectedByServing(c: Setting, w: World, m: Move, v: World, id: string)
    requires PlainDevice(c) && WorldInv(c, w) && Next(c, w, m) == Some(v) && id in v.rejected && id !in w.rejected
    ensures exists e :: e in w.minted && e.id == id && !Proper(c, e)
  {
    var batch := w.net[m.index].batch;
    assert m.Serve? && id in FinallyRejected(batch, Sort(BatchOnWire(batch), c.parses, m.known).rejected);
    assert Honest(w, w.net[m.index]);
    RejectionIsOfImproper(c, w, batch, m.known, id);
  }

  lemma PlayBefore(c: Setting, moves: seq<Move>)
    requires CarefulPlay(c, moves) && Play(c, moves).Some? && moves != []
    ensures var n := |moves| - 1;
      && CarefulPlay(c, moves[..n]) && Play(c, moves[..n]).Some?
      && Next(c, Play(c, moves[..n]).value, moves[n]) == Play(c, moves)
  {
    var n := |moves| - 1;
    forall i | 0 <= i < n
      ensures var before := Play(c, moves[..n][..i]);
        before.Some? ==> CarefulMove(before.value, moves[..n][i])
    {
      assert moves[..n][..i] == moves[..i];
    }
  }

  lemma {:induction false} PlayRejects(c: Setting, moves: seq<Move>)
    requires PlainDevice(c) && CarefulPlay(c, moves) && Play(c, moves).Some?
    ensures RejectedInv(c, Play(c, moves).value)
  {
    if moves != [] {
      var n := |moves| - 1;
      PlayBefore(c, moves);
      PlayInv(c, moves[..n]);
      PlayRejects(c, moves[..n]);
      RejectedNext(c, Play(c, moves[..n]).value, moves[n], Play(c, moves).value);
    }
  }

  /**
   * A proper play is never rejected, however often its host does not know the recording: it is queued, held as
   * it was measured, or was dropped by the cap or a refusal.
   */
  lemma ProperPlaysAreNotRejected(c: Setting, moves: seq<Move>, e: PlaybackEvent)
    requires PlainDevice(c) && CarefulPlay(c, moves) && Play(c, moves).Some?
    requires e in Play(c, moves).value.minted && Proper(c, e)
    ensures var w := Play(c, moves).value; e.id !in w.rejected && (e in w.queue || Held(w, e) || e.id in w.dropped)
  {
    PlayInv(c, moves);
    PlayRejects(c, moves);
    var w := Play(c, moves).value;
    assert Accounted(w, e);
    if e.id in w.rejected {
      var x :| x in w.minted && x.id == e.id && !Proper(c, x);
      MintedOnce(c, w, x, e);
    }
  }

  /** No host refused a whole batch, and there were never more plays than the queue takes. */
  ghost predicate Fits(c: Setting, moves: seq<Move>) {
    && (forall i :: 0 <= i < |moves| ==> !moves[i].Refuse?)
    && Play(c, moves).Some? && |Play(c, moves).value.minted| <= MAX_QUEUED_EVENTS
  }

  ghost predicate NoRefusal(w: World) {
    (forall m :: m in w.net ==> !m.Refused?) && forall m :: m in w.replies ==> m.Answered?
  }

  lemma {:induction false} NothingIsDropped(c: Setting, moves: seq<Move>)
    requires Fits(c, moves)
    ensures var w := Play(c, moves).value; w.dropped == {} && |w.queue| <= |w.minted| && NoRefusal(w)
  {
    if moves != [] {
      var n := |moves| - 1;
      var w, v := Play(c, moves[..n]).value, Play(c, moves).value;
      assert |w.minted| <= |v.minted|;
      NothingIsDropped(c, moves[..n]);
      DroppedNext(c, w, moves[n], v);
      RefusalNext(c, w, moves[n], v);
    }
  }

  lemma DroppedNext(c: Setting, w: World, m: Move, v: World)
    requires Next(c, w, m) == Some(v) && |v.minted| <= MAX_QUEUED_EVENTS
    requires w.dropped == {} && |w.queue| <= |w.minted| && NoRefusal(w)
    ensures v.dropped == {} && |v.queue| <= |v.minted|
  {
    if m.Mint? {
      CapFacts(w.queue + [m.event], MAX_QUEUED_EVENTS);
    } else if m.Receive? && w.net[m.index].Answered? {
      AfterAnswerFacts(w.queue, w.net[m.index].batch, w.net[m.index].answer);
    }
  }

  lemma RefusalNext(c: Setting, w: World, m: Move, v: World)
    requires Next(c, w, m) == Some(v) && !m.Refuse? && NoRefusal(w)
    ensures NoRefusal(v)
  {
    if m.Lose? || m.Serve? || m.Receive? {
      DropMembers(w.net, m.index);
    } else if m.Reply? {
      DropMembers(w.replies, m.index);
      assert w.replies[m.index] in w.replies;
    }
  }

  /** Without a refusal and within the cap, every proper play is still queued or held. */
  lemma ProperPlaysAreKept(c: Setting, moves: seq<Move>, e: PlaybackEvent)
    requires PlainDevice(c) && CarefulPlay(c, moves) && Fits(c, moves)
    requires e in Play(c, moves).value.minted && Proper(c, e)
    ensures e in Play(c, moves).value.queue || Held(Play(c, moves).value, e)
  {
    ProperPlaysAreNotRejected(c, moves, e);
    NothingIsDropped(c, moves);
  }

  /** The answer is to a batch with this play, and says that the host has it. */
  predicate Answers(m: Message, e: PlaybackEvent) {
    m.Answered? && e in m.batch && (e.id in m.answer.accepted || e.id in m.answer.duplicates)
  }

  /**
   * A host that takes up a request holds each proper play in it whose recording it knows, or is writing it, and
   * its answer, ready or to come, says so.
   */
  lemma ServedPlaysAreTaken(c: Setting, w: World, v: World, i: nat, known: string -> bool, now: int, e: PlaybackEvent)
    requires PlainDevice(c) && WorldInv(c, w) && Next(c, w, Serve(i, known, now)) == Some(v)
    requires i < |w.net| && e in w.net[i].batch && Proper(c, e) && known(e.recordingUrl)
    ensures v.serving.None? ==> Held(v, e) && v.replies != [] && Answers(v.replies[|v.replies| - 1], e)
    ensures Held(v, e) || Writes(v, e)
    ensures v.serving.Some? ==>
      && v.host.host.Up? && v.host.host.appending.Writing? && e in v.serving.value.batch
      && (e.id in v.serving.value.duplicates || e.id in Ids(v.host.host.appending.accepted))
  {
    var batch, sorted, j := ServeShape(c, w, v, i, known, now);
    assert Honest(w, w.net[i]);
    TakenAsValid(c, batch, known, e);
    forall y | y in sorted.valid
      ensures exists b :: b in batch && y == AsStored(b)
    {
      var b := ValidIsOurs(c, w, batch, known, y);
    }
    JudgedIsTaken(c, w, v, batch, sorted.valid, now, e);
  }

  lemma JudgedIsTaken(c: Setting, w: World, v: World, batch: Queue, valid: seq<PlaybackEvent>, now: int,
      e: PlaybackEvent)
    requires PlainDevice(c) && WorldInv(c, w) && w.host.host.Up? && e in batch && e.id != "" && AsStored(e) in valid
    requires Judged(c, w, v, batch, valid, EventLog.Judge(w.host.host.mem.seen, valid, now))
    ensures Held(v, e) || Writes(v, e)
    ensures var j := EventLog.Judge(w.host.host.mem.seen, valid, now); e.id in j.duplicates || e.id in Ids(j.accepted)
  {
    var j, stored := EventLog.Judge(w.host.host.mem.seen, valid, now), StoredEvent(AsStored(e), now);
    JudgeAnswersAll(w.host.host.mem.seen, valid, now);
    if stored in j.accepted {
      assert Writes(v, e);
      var k :| 0 <= k < |j.accepted| && j.accepted[k] == stored;
      assert Ids(j.accepted)[k] == e.id;
    } else {
      JudgedAnswer(c, w, v, batch, valid, now, e.id);
      var b :| b in batch && b.id == e.id && (Held(v, b) || Writes(v, b));
      MintedOnce(c, w, b, e);
    }
  }

  lemma TakenAsValid(c: Setting, batch: Queue, known: string -> bool, e: PlaybackEvent)
    requires e in batch && e.id != "" && e.deviceId != Some("") && Proper(c, e) && known(e.recordingUrl)
    ensures AsStored(e) in Sort(BatchOnWire(batch), c.parses, known).valid
  {
    var i :| 0 <= i < |batch| && batch[i] == e;
    SortFacts(BatchOnWire(batch), c.parses, known);
    ProperIsValid(c, e);
    assert IsSorted(BatchOnWire(batch)[i], i, Sort(BatchOnWire(batch), c.parses, known), c.parses, known);
  }

  function After(c: Setting, w: World, moves: seq<Move>): Option<World>
    decreases |moves|
  {
    if moves == [] then Some(w)
    else
      match Next(c, w, moves[0])
      case None => None
      case Some(v) => After(c, v, moves[1..])
  }

  lemma FirstThen(c: Setting, w: World, m: Move, v: World, moves: seq<Move>)
    requires Next(c, w, m) == Some(v)
    ensures After(c, w, [m] + moves) == After(c, v, moves)
  {
    assert ([m] + moves)[1..] == moves;
  }

  lemma WrittenIsHeld(c: Setting, w: World, v: World, e: PlaybackEvent)
    requires Next(c, w, HostMove(AppendWritten)) == Some(v) && w.serving.Some? && (Held(w, e) || Writes(w, e))
    requires e in w.serving.value.batch && w.host.host.Up? && w.host.host.appending.Writing?
    requires e.id in w.serving.value.duplicates || e.id in Ids(w.host.host.appending.accepted)
    ensures Held(v, e) && v.queue == w.queue && v.replies != [] && Answers(v.replies[|v.replies| - 1], e)
  {
    assert v.host.history == w.host.history + w.host.host.appending.accepted;
    if Held(w, e) {
      var h :| h in w.host.history && h.event == AsStored(e);
      assert h in v.host.history;
    } else {
      var h :| h in w.host.host.appending.accepted && h.event == AsStored(e);
      assert h in v.host.history;
    }
  }

  lemma CanBegin(s: State, batch: seq<PlaybackEvent>, now: int)
    requires s.host.Up? && s.host.appending.Quiet? && now >= s.clock && NamesRecordings(batch)
    ensures Step(s, BeginAppend(batch, now)).Some?
  {
  }

  lemma CanServe(c: Setting, w: World, i: nat, known: string -> bool, now: int) returns (v: World)
    requires w.host.host.Up? && w.host.host.appending.Quiet? && now >= w.host.clock
    requires i < |w.net| && w.net[i].Request?
    ensures Next(c, w, Serve(i, known, now)) == Some(v)
  {
    SortFacts(BatchOnWire(w.net[i].batch), c.parses, known);
    CanBegin(w.host, Sort(BatchOnWire(w.net[i].batch), c.parses, known).valid, now);
    v := Next(c, w, Serve(i, known, now)).value;
  }

  /** The last answer that is ready reaches the guest. */
  lemma AnswerDelivers(c: Setting, w: World, e: PlaybackEvent) returns (moves: seq<Move>, v: World)
    requires w.replies != [] && Answers(w.replies[|w.replies| - 1], e) && Held(w, e)
    ensures After(c, w, moves) == Some(v) && Held(v, e) && e !in v.queue
  {
    var r, n := |w.replies| - 1, |w.net|;
    var x := Next(c, w, Reply(r)).value;
    assert x.net[n] == w.replies[r];
    AfterAnswerIff(x.queue, x.net[n].batch, x.net[n].answer, e);
    v := Next(c, x, Receive(n)).value;
    FirstThen(c, x, Receive(n), v, []);
    moves := [Receive(n)] + [];
    FirstThen(c, w, Reply(r), x, moves);
    moves := [Reply(r)] + moves;
  }

  /** The append is written. */
  lemma WriteDelivers(c: Setting, w: World, e: PlaybackEvent) returns (moves: seq<Move>, v: World)
    requires w.serving.Some? && w.host.host.Up? && w.host.host.appending.Writing? && (Held(w, e) || Writes(w, e))
    requires e in w.serving.value.batch
    requires e.id in w.serving.value.duplicates || e.id in Ids(w.host.host.appending.accepted)
    ensures After(c, w, moves) == Some(v) && Held(v, e) && e !in v.queue
  {
    var x := Next(c, w, HostMove(AppendWritten)).value;
    WrittenIsHeld(c, w, x, e);
    moves, v := AnswerDelivers(c, x, e);
    FirstThen(c, w, HostMove(AppendWritten), x, moves);
    moves := [HostMove(AppendWritten)] + moves;
  }

  /** What a served play comes to, at once or once the append is written. */
  lemma ServedDelivers(c: Setting, w: World, e: PlaybackEvent) returns (moves: seq<Move>, v: World)
    requires w.serving.None? ==> Held(w, e) && w.replies != [] && Answers(w.replies[|w.replies| - 1], e)
    requires Held(w, e) || Writes(w, e)
    requires w.serving.Some? ==>
      && w.host.host.Up? && w.host.host.appending.Writing? && e in w.serving.value.batch
      && (e.id in w.serving.value.duplicates || e.id in Ids(w.host.host.appending.accepted))
    ensures After(c, w, moves) == Some(v) && Held(v, e) && e !in v.queue
  {
    if w.serving.Some? {
      moves, v := WriteDelivers(c, w, e);
    } else {
      moves, v := AnswerDelivers(c, w, e);
    }
  }

  /** The host takes up a request. */
  lemma RequestDelivers(c: Setting, w: World, i: nat, known: string -> bool, now: int, e: PlaybackEvent)
      returns (moves: seq<Move>, v: World)
    requires PlainDevice(c) && WorldInv(c, w) && w.host.host.Up? && w.host.host.appending.Quiet? && now >= w.host.clock
    requires i < |w.net| && w.net[i].Request? && e in w.net[i].batch && Proper(c, e) && known(e.recordingUrl)
    ensures After(c, w, moves) == Some(v) && Held(v, e) && e !in v.queue
  {
    var x := CanServe(c, w, i, known, now);
    ServedPlaysAreTaken(c, w, x, i, known, now, e);
    moves, v := ServedDelivers(c, x, e);
    FirstThen(c, w, Serve(i, known, now), x, moves);
    moves := [Serve(i, known, now)] + moves;
  }

  /** The queue is sent. */
  lemma QueueDelivers(c: Setting, w: World, known: string -> bool, now: int, e: PlaybackEvent)
      returns (moves: seq<Move>, v: World)
    requires PlainDevice(c) && WorldInv(c, w) && w.host.host.Up? && w.host.host.appending.Quiet? && now >= w.host.clock
    requires e in w.queue && Proper(c, e) && known(e.recordingUrl)
    ensures After(c, w, [Flush] + moves) == Some(v) && Held(v, e) && e !in v.queue
  {
    var sent := Next(c, w, Flush).value;
    NextInv(c, w, Flush, sent);
    moves, v := RequestDelivers(c, sent, |w.net|, known, now, e);
    FirstThen(c, w, Flush, sent, moves);
  }

  /**
   * After any run that leaves the host up and between appends, a flush that gets through, and whose answer does,
   * leaves each proper play of a known recording held by the host and off the queue.
   */
  lemma AFlushDelivers(c: Setting, run: seq<Move>, known: string -> bool, now: int, e: PlaybackEvent)
      returns (moves: seq<Move>, v: World)
    requires PlainDevice(c) && CarefulPlay(c, run) && Play(c, run).Some?
    requires var w := Play(c, run).value;
      && w.host.host.Up? && w.host.host.appending.Quiet? && now >= w.host.clock
      && e in w.queue && Proper(c, e) && known(e.recordingUrl)
    ensures After(c, Play(c, run).value, [Flush] + moves) == Some(v) && Held(v, e) && e !in v.queue
  {
    PlayInv(c, run);
    moves, v := QueueDelivers(c, Play(c, run).value, known, now, e);
  }

  /** No batch brings back an event whose segment was already swept. */
  ghost predicate FreshMove(c: Setting, w: World, m: Move) {
    && (m.HostMove? ==> RetentionTheorems.NotResent(w.host, m.action))
    && (m.Serve? && m.index < |w.net| && w.net[m.index].Request? ==>
      RetentionTheorems.NotResent(w.host,
        BeginAppend(Sort(BatchOnWire(w.net[m.index].batch), c.parses, m.known).valid, m.now)))
  }

  ghost predicate FreshPlay(c: Setting, moves: seq<Move>) {
    forall i :: 0 <= i < |moves| ==>
      var before := Play(c, moves[..i]);
      before.Some? ==> FreshMove(c, before.value, moves[i])
  }

  lemma HostOfMove(c: Setting, w: World, m: Move, v: World)
    requires Next(c, w, m) == Some(v)
    ensures m.HostMove? ==> Step(w.host, m.action) == Some(v.host)
    ensures !m.HostMove? && !m.Serve? ==> v.host == w.host
  {
  }

  lemma NextOnce(c: Setting, w: World, m: Move, v: World)
    requires Inv(w.host) && RetentionTheorems.OnceInv(w.host)
    requires FreshMove(c, w, m) && Next(c, w, m) == Some(v)
    ensures RetentionTheorems.OnceInv(v.host)
  {
    if m.Serve? {
      var batch, sorted, j := ServeShape(c, w, v, m.index, m.known, m.now);
      RetentionTheorems.OnceStep(w.host, BeginAppend(sorted.valid, m.now), v.host);
    } else {
      HostOfMove(c, w, m, v);
      if m.HostMove? {
        RetentionTheorems.OnceStep(w.host, m.action, v.host);
      }
    }
  }

  lemma {:induction false} PlayOnce(c: Setting, moves: seq<Move>)
    requires PlainDevice(c) && CarefulPlay(c, moves) && FreshPlay(c, moves) && Play(c, moves).Some?
    ensures WorldInv(c, Play(c, moves).value) && RetentionTheorems.OnceInv(Play(c, moves).value.host)
  {
    if moves != [] {
      var n := |moves| - 1;
      forall i | 0 <= i < n
        ensures var before := Play(c, moves[..n][..i]);
          before.Some? ==> CarefulMove(before.value, moves[..n][i]) && FreshMove(c, before.value, moves[..n][i])
      {
        assert moves[..n][..i] == moves[..i];
      }
      PlayOnce(c, moves[..n]);
      NextInv(c, Play(c, moves[..n]).value, moves[n], Play(c, moves).value);
      NextOnce(c, Play(c, moves[..n]).value, moves[n], Play(c, moves).value);
    }
  }

  /**
   * Exactly once. A play the host has counted stands in its history once, however often its batch
   * was resent, as long as it is not resent after its segment was swept.
   */
  lemma CountedPlaysAreCountedOnce(c: Setting, moves: seq<Move>, i: nat, j: nat)
    requires PlainDevice(c) && CarefulPlay(c, moves) && FreshPlay(c, moves) && Play(c, moves).Some?
    requires var h := Play(c, moves).value.host.history;
      i < |h| && j < |h| && h[i].event.deviceId == h[j].event.deviceId && h[i].event.id == h[j].event.id
    ensures i == j
  {
    PlayOnce(c, moves);
  }
}

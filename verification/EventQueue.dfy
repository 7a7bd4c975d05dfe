/** The durable outbox of `eventQueue.ts`: one queue a host, kept in device storage. */
module EventQueue {
  import opened Wrappers
  import opened PlayTotals
  import opened EventIngest

  const MAX_QUEUED_EVENTS := 500

  type Queue = seq<PlaybackEvent>

  /** The end of the queue that fits under the cap. */
  function Capped(q: Queue, cap: nat): Queue {
    if |q| <= cap then q else q[|q| - cap..]
  }

  /** What the cap pushes out, oldest first. */
  function Overflow(q: Queue, cap: nat): Queue {
    if |q| <= cap then [] else q[..|q| - cap]
  }

  /** The ids an answer lets the queue forget. An event with no id in its rejection is found by its index. */
  function Settled(batch: Queue, answer: Answer): set<string> {
    (set id | id in answer.accepted) + (set id | id in answer.duplicates) + FinallyRejected(batch, answer.rejected)
  }

  function FinallyRejected(batch: Queue, rejected: seq<Rejection>): set<string> {
    if rejected == [] then {}
    else
      var r := rejected[|rejected| - 1];
      FinallyRejected(batch, rejected[..|rejected| - 1])
      + if r.retryable then {}
        else if r.id.Some? then {r.id.value}
        else if r.index < |batch| then {batch[r.index].id}
        else {}
  }

  function Without(q: Queue, ids: set<string>): Queue {
    if q == [] then []
    else if q[0].id in ids then Without(q[1..], ids)
    else [q[0]] + Without(q[1..], ids)
  }

  function IdsOf(q: Queue): set<string> {
    set e | e in q :: e.id
  }

  /** `applyIngestResponse`: what of the batch is kept. */
  function Kept(batch: Queue, answer: Answer): Queue {
    Without(batch, Settled(batch, answer))
  }

  /** What a flush writes back: the stored queue less what was sent and is no longer kept. */
  function AfterAnswer(current: Queue, batch: Queue, answer: Answer): Queue {
    Without(current, IdsOf(batch) - IdsOf(Kept(batch, answer)))
  }

  lemma {:induction false} WithoutFacts(q: Queue, ids: set<string>)
    ensures forall e :: e in Without(q, ids) <==> e in q && e.id !in ids
    ensures |Without(q, ids)| <= |q|
  {
    if q != [] {
      WithoutFacts(q[1..], ids);
    }
  }

  /**
   * Only what the answer settles of what was sent leaves the queue. A play that finished while
   * the request was in flight stays, and so does one the answer does not mention.
   */
  lemma AfterAnswerFacts(current: Queue, batch: Queue, answer: Answer)
    ensures forall e :: e in AfterAnswer(current, batch, answer) <==>
              e in current && !(e.id in IdsOf(batch) && e.id in Settled(batch, answer))
    ensures |AfterAnswer(current, batch, answer)| <= |current|
  {
    var settled := Settled(batch, answer);
    WithoutFacts(batch, settled);
    WithoutFacts(current, IdsOf(batch) - IdsOf(Kept(batch, answer)));
    forall e | e in current
      ensures e.id in IdsOf(batch) - IdsOf(Kept(batch, answer)) <==> e.id in IdsOf(batch) && e.id in settled
    {
      if e.id in IdsOf(batch) && e.id !in settled {
        var b :| b in batch && b.id == e.id;
        assert b in Kept(batch, answer);
      }
    }
  }

  /** What is kept stays in its order, and nothing of it is kept or dropped for what stands beside it. */
  lemma {:induction false} WithoutConcat(a: Queue, b: Queue, ids: set<string>)
    ensures Without(a + b, ids) == Without(a, ids) + Without(b, ids)
  {
    if a == [] {
      assert a + b == b;
    } else {
      WithoutConcat(a[1..], b, ids);
      assert (a + b)[1..] == a[1..] + b;
    }
  }

  /** Not to be tried again, and about this id: the one the host read, or that of the event at the place. */
  predicate RejectsForGood(batch: Queue, r: Rejection, id: string) {
    !r.retryable && (r.id == Some(id) || (r.id.None? && r.index < |batch| && batch[r.index].id == id))
  }

  lemma {:induction false} FinallyRejectedIff(batch: Queue, rejected: seq<Rejection>, id: string)
    ensures id in FinallyRejected(batch, rejected) <==> exists r :: r in rejected && RejectsForGood(batch, r, id)
  {
    if rejected != [] {
      var n := |rejected| - 1;
      FinallyRejectedIff(batch, rejected[..n], id);
      assert rejected == rejected[..n] + [rejected[n]];
      assert rejected[n] in rejected;
    }
  }

  /**
   * An event of the batch is kept exactly when the answer neither accepts it nor knows it nor rejects it for
   * good, by its id or, where the host could not read one, by its place.
   */
  lemma KeptIff(batch: Queue, answer: Answer, e: PlaybackEvent)
    ensures e in Kept(batch, answer) <==>
      && e in batch && e.id !in answer.accepted && e.id !in answer.duplicates
      && forall r :: r in answer.rejected ==> !RejectsForGood(batch, r, e.id)
  {
    WithoutFacts(batch, Settled(batch, answer));
    FinallyRejectedIff(batch, answer.rejected, e.id);
  }

  /** And an event leaves the stored queue exactly when its id was sent and the answer did one of these. */
  lemma AfterAnswerIff(current: Queue, batch: Queue, answer: Answer, e: PlaybackEvent)
    ensures e in AfterAnswer(current, batch, answer) <==>
      && e in current
      && !((exists b :: b in batch && b.id == e.id)
        && (e.id in answer.accepted || e.id in answer.duplicates
          || exists r :: r in answer.rejected && RejectsForGood(batch, r, e.id)))
  {
    AfterAnswerFacts(current, batch, answer);
    FinallyRejectedIff(batch, answer.rejected, e.id);
  }

  /** The cap drops the oldest, only those, and no more of them than it has to. */
  lemma CapFacts(q: Queue, cap: nat)
    ensures |Capped(q, cap)| == if |q| <= cap then |q| else cap
    ensures Overflow(q, cap) + Capped(q, cap) == q
  {
  }

  /** What the flush's request came back with. */
  datatype Response = Unreachable | Status(code: int) | Body(answer: Answer)

  datatype FlushOutcome = Flushed(remaining: nat) | Empty | Deferred

  class Outbox {
    var queues: map<string, Queue>

    constructor ()
      ensures queues == map[]
    {
      queues := map[];
    }

    function ReadQueue(edge: string): Queue
      reads this
    {
      if edge in queues then queues[edge] else []
    }

    method WriteQueue(edge: string, events: Queue)
      modifies this
      ensures ReadQueue(edge) == events
      ensures forall other :: other != edge ==> ReadQueue(other) == old(ReadQueue(other))
    {
      if events == [] {
        queues := map k | k in queues && k != edge :: queues[k];
      } else {
        queues := queues[edge := events];
      }
    }

    method Enqueue(edge: string, event: PlaybackEvent, cap: nat := MAX_QUEUED_EVENTS)
      modifies this
      ensures ReadQueue(edge) == Capped(old(ReadQueue(edge)) + [event], cap)
      ensures forall other :: other != edge ==> ReadQueue(other) == old(ReadQueue(other))
    {
      var queue := ReadQueue(edge) + [event];
      WriteQueue(edge, queue[if |queue| <= cap then 0 else |queue| - cap..]);
    }

    method ApplyIngestResponse(batch: Queue, answer: Answer) returns (kept: Queue)
      ensures kept == Kept(batch, answer)
    {
      var settled := (set id | id in answer.accepted) + (set id | id in answer.duplicates);
      var i := 0;
      while i < |answer.rejected|
        invariant 0 <= i <= |answer.rejected|
        invariant settled == (set id | id in answer.accepted) + (set id | id in answer.duplicates)
                             + FinallyRejected(batch, answer.rejected[..i])
      {
        assert answer.rejected[..i + 1][..i] == answer.rejected[..i];
        var r := answer.rejected[i];
        if !r.retryable {
          if r.id.Some? {
            settled := settled + {r.id.value};
          } else if r.index < |batch| {
            settled := settled + {batch[r.index].id};
          }
        }
        i := i + 1;
      }
      assert answer.rejected[..|answer.rejected|] == answer.rejected;
      kept := Without(batch, settled);
    }

    /** The half of a flush after the request: `batch` is what was sent, and the queue may have grown since. */
    method FinishFlush(edge: string, batch: Queue, response: Response) returns (outcome: FlushOutcome)
      modifies this
      ensures forall other :: other != edge ==> ReadQueue(other) == old(ReadQueue(other))
      ensures batch == [] ==> outcome == Empty && ReadQueue(edge) == old(ReadQueue(edge))
      ensures batch != [] && response.Body? ==>
        && ReadQueue(edge) == AfterAnswer(old(ReadQueue(edge)), batch, response.answer)
        && outcome == Flushed(|Kept(batch, response.answer)|)
      ensures batch != [] && response.Status? && response.code in {400, 413, 415} ==>
        ReadQueue(edge) == [] && outcome == Flushed(0)
      ensures batch != [] && (response.Unreachable? || (response.Status? && response.code !in {400, 413, 415})) ==>
        ReadQueue(edge) == old(ReadQueue(edge)) && outcome == Deferred
    {
      if batch == [] {
        return Empty;
      }
      match response
      case Unreachable =>
        outcome := Deferred;
      case Status(code) =>
        if code in {400, 413, 415} {
          WriteQueue(edge, []);
          outcome := Flushed(0);
        } else {
          outcome := Deferred;
        }
      case Body(answer) =>
        var kept := ApplyIngestResponse(batch, answer);
        WriteQueue(edge, Without(ReadQueue(edge), IdsOf(batch) - IdsOf(kept)));
        outcome := Flushed(|kept|);
    }
  }
}

/**
 * How the host counts PIN guesses (`hostVouching.ts` over `personRoster.ts`). A guess is reserved and
 * saved in one queued roster write, and its comparison begins before any other write can: `checkPin`
 * goes on in the microtasks that follow the rename, and the next write still has its disk calls to do.
 * The comparisons themselves are slow, so the guesses of many requests interleave.
 */
module PinGuard {
  import opened Wrappers

  const MAX_PIN_FAILURES := 5

  type Key = string
  type PinHash = string

  datatype Person = Person(name: string, pin: Option<PinHash>, failures: nat)
  type Roster = map<Key, Person>

  /** A reserved guess: what was typed, the hash the reservation saw and the count it saved. */
  datatype Guess = Guess(person: Key, typed: string, against: PinHash, failures: nat)

  /** What happened to a person's count, oldest first. */
  datatype Event = Reserved(person: Key) | Started(person: Key) | Cleared(person: Key)

  /** The roster is what the file says. One guess may be saved and not compared yet; others are being compared. */
  datatype State = State(roster: Roster, waiting: Option<Guess>, comparing: map<nat, Guess>, next: nat, log: seq<Event>)

  /**
   * `Reserve` is the first write of `checkPin`, `Start` the hash it then begins, `Finish` the answer,
   * with a second write when it matches. `Save` is `savePin` and a PIN change. `Rejoin` is a later join,
   * which renames and may set or remove the PIN, and `Put` a first one. A write may fail, and then
   * changes nothing. A restart forgets every guess under way.
   */
  datatype Action =
    | Reserve(person: Key, typed: string, writeFails: bool)
    | Start
    | Finish(id: nat, matches: bool, writeFails: bool)
    | Save(person: Key, pin: Option<PinHash>, writeFails: bool)
    | Rejoin(person: Key, name: string, newPin: Option<Option<PinHash>>, writeFails: bool)
    | Put(person: Key, entry: Person, writeFails: bool)
    | Unlock(person: Key, writeFails: bool)
    | Restart

  predicate MayReserve(roster: Roster, person: Key) {
    person in roster && roster[person].pin.Some? && roster[person].failures < MAX_PIN_FAILURES
  }

  function Clear(s: State, person: Key, entry: Person): State {
    s.(roster := s.roster[person := entry.(failures := 0)], log := s.log + [Cleared(person)])
  }

  /** Only the start of its comparison, or a restart, can follow a reservation. */
  function Step(s: State, a: Action): State {
    if a.Restart? then s.(waiting := None, comparing := map[])
    else if a.Start? then StartStep(s)
    else if s.waiting.Some? then s
    else QueueStep(s, a)
  }

  function StartStep(s: State): State {
    if s.waiting.None? then s
    else s.(waiting := None, comparing := s.comparing[s.next := s.waiting.value], next := s.next + 1,
           log := s.log + [Started(s.waiting.value.person)])
  }

  /** One write of the roster's queue. */
  function QueueStep(s: State, a: Action): State
    requires !a.Restart? && !a.Start?
  {
    match a
    case Reserve(person, typed, writeFails) =>
      if writeFails || !MayReserve(s.roster, person) then s
      else
        var entry := s.roster[person];
        var counted := entry.(failures := entry.failures + 1);
        s.(roster := s.roster[person := counted],
          waiting := Some(Guess(person, typed, entry.pin.value, counted.failures)),
          log := s.log + [Reserved(person)])
    case Finish(id, matches, writeFails) =>
      if id !in s.comparing then s
      else
        var t, person := s.(comparing := s.comparing - {id}), s.comparing[id].person;
        if matches && !writeFails && person in s.roster then Clear(t, person, s.roster[person]) else t
    case Save(person, pin, writeFails) =>
      if writeFails || person !in s.roster then s else Clear(s, person, s.roster[person].(pin := pin))
    case Rejoin(person, name, newPin, writeFails) =>
      if writeFails || person !in s.roster then s
      else
        var named := s.roster[person].(name := name);
        if newPin.None? then s.(roster := s.roster[person := named]) else Clear(s, person, named.(pin := newPin.value))
    case Put(person, entry, writeFails) => if writeFails then s else Clear(s, person, entry)
    case Unlock(person, writeFails) =>
      if writeFails || person !in s.roster || s.roster[person].failures == 0 then s
      else Clear(s, person, s.roster[person])
  }

  const EMPTY := State(map[], None, map[], 0, [])

  function RunFrom(s: State, actions: seq<Action>): State {
    if actions == [] then s else Step(RunFrom(s, actions[..|actions| - 1]), actions[|actions| - 1])
  }

  function Run(actions: seq<Action>): State {
    RunFrom(EMPTY, actions)
  }

  // ---- Counting the log ----

  function Reserves(e: Event, person: Key): nat {
    if e.Reserved? && e.person == person then 1 else 0
  }

  /** Reservations of a person since their count was last cleared. */
  function SinceCleared(log: seq<Event>, person: Key): nat {
    if log == [] then 0
    else
      var e := log[|log| - 1];
      if e == Cleared(person) then 0
      else SinceCleared(log[..|log| - 1], person) + Reserves(e, person)
  }

  function Reservations(log: seq<Event>, person: Key): nat {
    if log == [] then 0
    else Reservations(log[..|log| - 1], person) + Reserves(log[|log| - 1], person)
  }

  function Starts(log: seq<Event>, person: Key): nat {
    if log == [] then 0
    else Starts(log[..|log| - 1], person) + if log[|log| - 1].Started? && log[|log| - 1].person == person then 1 else 0
  }

  function Clears(log: seq<Event>, person: Key): nat {
    if log == [] then 0 else Clears(log[..|log| - 1], person) + if log[|log| - 1] == Cleared(person) then 1 else 0
  }

  /** The counts are those of the log, whatever its order. */
  lemma {:induction false} CountsAreOfTheLog(log: seq<Event>, person: Key)
    ensures Reservations(log, person) == multiset(log)[Reserved(person)]
    ensures Starts(log, person) == multiset(log)[Started(person)]
    ensures Clears(log, person) == multiset(log)[Cleared(person)]
  {
    if log != [] {
      CountsAreOfTheLog(log[..|log| - 1], person);
      assert log == log[..|log| - 1] + [log[|log| - 1]];
    }
  }

  /** Whether a guess of the person is saved and its comparison not begun. */
  function Waits(s: State, person: Key): nat {
    if s.waiting.Some? && s.waiting.value.person == person then 1 else 0
  }

  ghost predicate Inv(s: State) {
    && (forall id :: id in s.comparing ==> id < s.next)
    && (forall person :: person in s.roster ==>
      s.roster[person].failures == SinceCleared(s.log, person) && s.roster[person].failures <= MAX_PIN_FAILURES)
    && (forall person :: person !in s.roster ==> Reservations(s.log, person) == 0)
    && (s.waiting.Some? ==> s.log != [] && s.log[|s.log| - 1] == Reserved(s.waiting.value.person))
  }

  lemma Appended(log: seq<Event>, e: Event, person: Key)
    ensures SinceCleared(log + [e], person)
      == if e == Cleared(person) then 0 else SinceCleared(log, person) + Reserves(e, person)
    ensures Reservations(log + [e], person) == Reservations(log, person) + Reserves(e, person)
    ensures Starts(log + [e], person) == Starts(log, person) + if e.Started? && e.person == person then 1 else 0
    ensures Clears(log + [e], person) == Clears(log, person) + if e == Cleared(person) then 1 else 0
  {
    assert (log + [e])[..|log|] == log;
  }

  lemma StartInv(s: State)
    requires Inv(s)
    ensures Inv(StartStep(s))
  {
    if s.waiting.Some? {
      forall person: Key {
        Appended(s.log, Started(s.waiting.value.person), person);
      }
    }
  }

  lemma ReserveInv(s: State, a: Action)
    requires Inv(s) && s.waiting.None? && a.Reserve?
    ensures Inv(QueueStep(s, a))
  {
    forall person: Key {
      Appended(s.log, Reserved(a.person), person);
    }
  }

  lemma ClearInv(s: State, person: Key, entry: Person)
    requires Inv(s) && s.waiting.None?
    ensures Inv(Clear(s, person, entry))
  {
    forall each: Key {
      Appended(s.log, Cleared(person), each);
    }
  }

  /** A person's entry may change in anything but the count. */
  lemma RenameInv(s: State, person: Key, entry: Person)
    requires Inv(s) && person in s.roster && entry.failures == s.roster[person].failures
    ensures Inv(s.(roster := s.roster[person := entry]))
  {
  }

  lemma QueueInv(s: State, a: Action)
    requires Inv(s) && s.waiting.None? && !a.Restart? && !a.Start?
    ensures Inv(QueueStep(s, a))
  {
    match a
    case Reserve(_, _, _) => ReserveInv(s, a);
    case Finish(id, _, _) =>
      if id in s.comparing {
        var t, person := s.(comparing := s.comparing - {id}), s.comparing[id].person;
        if person in s.roster {
          ClearInv(t, person, s.roster[person]);
        }
      }
    case Save(person, pin, _) =>
      if person in s.roster {
        ClearInv(s, person, s.roster[person].(pin := pin));
      }
    case Rejoin(person, name, newPin, _) =>
      if person in s.roster {
        var named := s.roster[person].(name := name);
        if newPin.None? {
          RenameInv(s, person, named);
        } else {
          ClearInv(s, person, named.(pin := newPin.value));
        }
      }
    case Put(person, entry, _) => ClearInv(s, person, entry);
    case Unlock(person, _) =>
      if person in s.roster {
        ClearInv(s, person, s.roster[person]);
      }
  }

  lemma StepInv(s: State, a: Action)
    requires Inv(s)
    ensures Inv(Step(s, a))
  {
    if a.Start? {
      StartInv(s);
    } else if !a.Restart? && s.waiting.None? {
      QueueInv(s, a);
    }
  }

  lemma {:induction false} RunFromInv(s: State, actions: seq<Action>)
    requires Inv(s)
    ensures Inv(RunFrom(s, actions))
  {
    if actions != [] {
      RunFromInv(s, actions[..|actions| - 1]);
      StepInv(RunFrom(s, actions[..|actions| - 1]), actions[|actions| - 1]);
    }
  }

  lemma RunInv(actions: seq<Action>)
    ensures Inv(Run(actions))
  {
    RunFromInv(EMPTY, actions);
  }

  /** In every interleaving, across restarts, the saved count is the reservations since it was cleared, five at most. */
  lemma CountIsReservations(actions: seq<Action>, person: Key)
    requires person in Run(actions).roster
    ensures var s := Run(actions);
      s.roster[person].failures == SinceCleared(s.log, person) <= MAX_PIN_FAILURES
  {
    RunInv(actions);
  }

  // ---- Comparisons ----

  /** A comparison that starts uses up a reservation, an old one or a new one. */
  lemma StepStarts(s: State, a: Action, person: Key)
    ensures var t := Step(s, a);
      Starts(t.log, person) + Waits(t, person) - Reservations(t.log, person)
        <= Starts(s.log, person) + Waits(s, person) - Reservations(s.log, person)
  {
    var t := Step(s, a);
    if t.log != s.log {
      Appended(s.log, t.log[|s.log|], person);
    }
  }

  lemma {:induction false} RunStarts(s: State, actions: seq<Action>, person: Key)
    ensures var t := RunFrom(s, actions);
      Starts(t.log, person) + Waits(t, person) - Reservations(t.log, person)
        <= Starts(s.log, person) + Waits(s, person) - Reservations(s.log, person)
  {
    if actions != [] {
      var n := |actions| - 1;
      RunStarts(s, actions[..n], person);
      StepStarts(RunFrom(s, actions[..n]), actions[n], person);
    }
  }

  lemma StepCounts(s: State, a: Action, person: Key)
    ensures var t := Step(s, a);
      t.log == s.log || exists e :: Counts(s.log, t.log, e, person)
  {
    var t := Step(s, a);
    if t.log != s.log {
      var e := t.log[|s.log|];
      assert t.log == s.log + [e];
      Appended(s.log, e, person);
      assert Counts(s.log, t.log, e, person);
    }
  }

  /** Five reservations at most for each time the count was cleared, and five more. */
  lemma {:induction false} FiveForEachClear(actions: seq<Action>, person: Key)
    ensures var log := Run(actions).log;
      Reservations(log, person) <= MAX_PIN_FAILURES * Clears(log, person) + SinceCleared(log, person)
    ensures SinceCleared(Run(actions).log, person) <= MAX_PIN_FAILURES
  {
    RunInv(actions);
    if actions != [] {
      var n := |actions| - 1;
      FiveForEachClear(actions[..n], person);
      StepCounts(Run(actions[..n]), actions[n], person);
      assert Run(actions) == Step(Run(actions[..n]), actions[n]);
    }
    SinceIsFew(Run(actions), person);
  }

  ghost predicate Counts(before: seq<Event>, after: seq<Event>, e: Event, person: Key) {
    && Reservations(after, person) == Reservations(before, person) + Reserves(e, person)
    && Clears(after, person) == Clears(before, person) + (if e == Cleared(person) then 1 else 0)
    && SinceCleared(after, person)
       == if e == Cleared(person) then 0 else SinceCleared(before, person) + Reserves(e, person)
  }

  lemma {:induction false} SinceAtMostAll(log: seq<Event>, person: Key)
    ensures SinceCleared(log, person) <= Reservations(log, person)
  {
    if log != [] {
      SinceAtMostAll(log[..|log| - 1], person);
    }
  }

  lemma SinceIsFew(s: State, person: Key)
    requires Inv(s)
    ensures SinceCleared(s.log, person) <= MAX_PIN_FAILURES
  {
    SinceAtMostAll(s.log, person);
  }

  /** Over a whole run, at most five comparisons start for the first count and for each clearing. */
  lemma GuessesAreBounded(actions: seq<Action>, person: Key)
    ensures var log := Run(actions).log;
      Starts(log, person) <= MAX_PIN_FAILURES * (Clears(log, person) + 1)
  {
    RunInv([]);
    RunStarts(EMPTY, actions, person);
    FiveForEachClear(actions, person);
  }

  lemma {:induction false} NoClearBetween(s: State, actions: seq<Action>, person: Key)
    ensures var t := RunFrom(s, actions);
      && Clears(t.log, person) >= Clears(s.log, person)
      && (Clears(t.log, person) == Clears(s.log, person) ==>
        SinceCleared(t.log, person) - SinceCleared(s.log, person)
          == Reservations(t.log, person) - Reservations(s.log, person))
  {
    if actions != [] {
      var n := |actions| - 1;
      NoClearBetween(s, actions[..n], person);
      StepCounts(RunFrom(s, actions[..n]), actions[n], person);
    }
  }

  /** The comparisons that can start before the count is next cleared. */
  function TriesLeft(s: State, person: Key): int {
    MAX_PIN_FAILURES - SinceCleared(s.log, person) + Waits(s, person)
  }

  /**
   * From anywhere in a run, until the count is next cleared, no more comparisons start than tries are left, five
   * at most.
   */
  lemma StartsBetweenClears(before: seq<Action>, actions: seq<Action>, person: Key)
    requires Clears(RunFrom(Run(before), actions).log, person) == Clears(Run(before).log, person)
    ensures var s, t := Run(before), RunFrom(Run(before), actions);
      Starts(t.log, person) <= Starts(s.log, person) + TriesLeft(s, person) <= Starts(s.log, person) + MAX_PIN_FAILURES
  {
    var s := Run(before);
    RunInv(before);
    RunFromInv(s, actions);
    RunStarts(s, actions, person);
    NoClearBetween(s, actions, person);
    SinceIsFew(RunFrom(s, actions), person);
    if Waits(s, person) == 1 {
      assert SinceCleared(s.log, person) >= 1;
    }
  }

  /** A right guess of the person, a write of the PIN, or an operator's unlock. */
  predicate MayClear(s: State, a: Action, person: Key) {
    match a
    case Finish(id, matches, _) => matches && id in s.comparing && s.comparing[id].person == person
    case Save(key, _, _) => key == person
    case Rejoin(key, _, newPin, _) => key == person && newPin.Some?
    case Put(key, _, _) => key == person
    case Unlock(key, _) => key == person
    case _ => false
  }

  lemma OnlyTheseClear(s: State, a: Action, person: Key)
    requires !MayClear(s, a, person)
    ensures Clears(Step(s, a).log, person) == Clears(s.log, person)
  {
    var t := Step(s, a);
    if t.log != s.log {
      var e := t.log[|s.log|];
      assert t.log == s.log + [e] && e != Cleared(person);
      Appended(s.log, e, person);
    }
  }

  lemma {:induction false} NothingClears(s: State, actions: seq<Action>, person: Key)
    requires forall i :: 0 <= i < |actions| ==> !MayClear(RunFrom(s, actions[..i]), actions[i], person)
    ensures Clears(RunFrom(s, actions).log, person) == Clears(s.log, person)
  {
    if actions != [] {
      var n := |actions| - 1;
      assert forall i :: 0 <= i < n ==> actions[..n][..i] == actions[..i];
      NothingClears(s, actions[..n], person);
      OnlyTheseClear(RunFrom(s, actions[..n]), actions[n], person);
    }
  }

  /**
   * Without a right guess, a new PIN or an unlock, no more comparisons start than tries are left, whatever else
   * happens, wrong guesses, failed writes and restarts included.
   */
  lemma WrongGuessesAreFew(before: seq<Action>, actions: seq<Action>, person: Key)
    requires forall i :: 0 <= i < |actions| ==> !MayClear(RunFrom(Run(before), actions[..i]), actions[i], person)
    ensures var s, t := Run(before), RunFrom(Run(before), actions);
      Starts(t.log, person) <= Starts(s.log, person) + TriesLeft(s, person) <= Starts(s.log, person) + MAX_PIN_FAILURES
  {
    NothingClears(Run(before), actions, person);
    StartsBetweenClears(before, actions, person);
  }

  lemma {:induction false} RunFromSplit(s: State, first: seq<Action>, more: seq<Action>)
    ensures RunFrom(s, first + more) == RunFrom(RunFrom(s, first), more)
  {
    if more == [] {
      assert first + more == first;
    } else {
      RunFromSplit(s, first, more[..|more| - 1]);
      assert (first + more)[..|first + more| - 1] == first + more[..|more| - 1];
    }
  }

  lemma StepFirst(s: State, a: Action, rest: seq<Action>)
    ensures RunFrom(s, [a] + rest) == RunFrom(Step(s, a), rest)
  {
    RunFromSplit(s, [a], rest);
    assert [a][..0] == [] && RunFrom(s, []) == s;
  }

  /** Every try that is left is used: what waits starts, and each further guess is reserved and starts. */
  lemma {:induction false} UseAll(s: State, person: Key) returns (actions: seq<Action>)
    requires Inv(s) && person in s.roster && s.roster[person].pin.Some?
    ensures var t := RunFrom(s, actions);
      Starts(t.log, person) == Starts(s.log, person) + TriesLeft(s, person)
        && Clears(t.log, person) == Clears(s.log, person)
    decreases MAX_PIN_FAILURES - s.roster[person].failures, if s.waiting.Some? then 1 else 0
  {
    if s.waiting.None? && s.roster[person].failures == MAX_PIN_FAILURES {
      return [];
    }
    var a := if s.waiting.Some? then Start else Reserve(person, "", false);
    var t := Step(s, a);
    StepInv(s, a);
    Appended(s.log, t.log[|s.log|], person);
    var rest := UseAll(t, person);
    StepFirst(s, a, rest);
    actions := [a] + rest;
  }

  /** The bound is reached from every state in which the person has a PIN: five in all after each clearing. */
  lemma BoundIsReached(before: seq<Action>, person: Key) returns (actions: seq<Action>)
    requires person in Run(before).roster && Run(before).roster[person].pin.Some?
    ensures var s, t := Run(before), RunFrom(Run(before), actions);
      && Clears(t.log, person) == Clears(s.log, person)
      && Starts(t.log, person) == Starts(s.log, person) + TriesLeft(s, person)
    ensures SinceCleared(Run(before).log, person) == 0 ==> TriesLeft(Run(before), person) == MAX_PIN_FAILURES
  {
    RunInv(before);
    actions := UseAll(Run(before), person);
  }
}

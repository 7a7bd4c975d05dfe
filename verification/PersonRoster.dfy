/** The roster file and its cache (`personRoster.ts`), and the PIN writes of `hostVouching.ts` over it. */
module PersonRoster {
  import opened Wrappers
  import opened PinGuard

  datatype Entry = Entry(key: Key, person: Person)

  /** At most one entry for each person. */
  predicate OneEach(entries: seq<Entry>) {
    forall i, j :: 0 <= i < j < |entries| ==> entries[i].key != entries[j].key
  }

  function AsRoster(entries: seq<Entry>): Roster {
    if entries == [] then map[]
    else AsRoster(entries[..|entries| - 1])[entries[|entries| - 1].key := entries[|entries| - 1].person]
  }

  /** `entries.filter(existing => existing.personKey !== entry.personKey)`. */
  function Without(entries: seq<Entry>, key: Key): seq<Entry> {
    if entries == [] then []
    else
      var front, last := Without(entries[..|entries| - 1], key), entries[|entries| - 1];
      if last.key == key then front else front + [last]
  }

  /** The first entry with the key. */
  function Find(entries: seq<Entry>, key: Key): Option<Person> {
    if entries == [] then None else if entries[0].key == key then Some(entries[0].person) else Find(entries[1..], key)
  }

  lemma {:induction false} WithoutKeeps(entries: seq<Entry>, key: Key)
    requires OneEach(entries)
    ensures OneEach(Without(entries, key))
    ensures forall e :: e in Without(entries, key) <==> e in entries && e.key != key
  {
    if entries != [] {
      var n := |entries| - 1;
      WithoutKeeps(entries[..n], key);
      assert entries == entries[..n] + [entries[n]];
      assert forall e :: e in entries[..n] ==> e.key != entries[n].key;
    }
  }

  lemma {:induction false} WithoutIs(entries: seq<Entry>, key: Key)
    requires OneEach(entries)
    ensures AsRoster(Without(entries, key)) == AsRoster(entries) - {key}
  {
    if entries != [] {
      var n := |entries| - 1;
      var front, last := Without(entries[..n], key), entries[n];
      WithoutIs(entries[..n], key);
      RemoveAfterPut(AsRoster(entries[..n]), last.key, last.person, key);
      if last.key != key {
        AsRosterAppend(front, last);
      }
    }
  }

  lemma AsRosterAppend(entries: seq<Entry>, e: Entry)
    ensures AsRoster(entries + [e]) == AsRoster(entries)[e.key := e.person]
  {
    assert (entries + [e])[..|entries|] == entries;
  }

  lemma RemoveAfterPut(m: Roster, k: Key, v: Person, key: Key)
    ensures m[k := v] - {key} == if k == key then m - {key} else (m - {key})[k := v]
  {
  }

  lemma {:induction false} KeysAreEntries(entries: seq<Entry>, key: Key)
    ensures key in AsRoster(entries) <==> exists i :: 0 <= i < |entries| && entries[i].key == key
  {
    if entries != [] {
      var n := |entries| - 1;
      KeysAreEntries(entries[..n], key);
      if i :| 0 <= i < n && entries[..n][i].key == key {
        assert entries[i].key == key;
      }
      if i :| 0 <= i < |entries| && entries[i].key == key && i < n {
        assert entries[..n][i].key == key;
      }
    }
  }

  lemma {:induction false} FindIs(entries: seq<Entry>, key: Key)
    requires OneEach(entries)
    ensures Find(entries, key) == if key in AsRoster(entries) then Some(AsRoster(entries)[key]) else None
  {
    if entries != [] {
      FindIs(entries[1..], key);
      HeadFirst(entries, key);
    }
  }

  lemma {:induction false} HeadFirst(entries: seq<Entry>, key: Key)
    requires OneEach(entries) && entries != []
    ensures AsRoster(entries) == AsRoster(entries[1..])[entries[0].key := entries[0].person]
  {
    if |entries| > 1 {
      var n := |entries| - 1;
      HeadFirst(entries[..n], key);
      assert entries[..n][1..] == entries[1..][..n - 1];
      assert entries[1..][n - 1] == entries[n] && entries[0].key != entries[n].key;
    } else {
      assert entries[..0] == [] && entries[1..] == [];
    }
  }

  lemma ReplacedIs(entries: seq<Entry>, key: Key, person: Person)
    requires OneEach(entries)
    ensures var next := Without(entries, key) + [Entry(key, person)];
      OneEach(next) && AsRoster(next) == AsRoster(entries)[key := person]
  {
    WithoutKeeps(entries, key);
    WithoutIs(entries, key);
    AsRosterAppend(Without(entries, key), Entry(key, person));
  }

  /** The roster after one step of the machine. */
  ghost function After(roster: Roster, a: Action): Roster {
    Step(EMPTY.(roster := roster), a).roster
  }

  /** A roster, and one guess being compared. */
  ghost function Comparing(roster: Roster, id: nat, guess: Guess): State {
    EMPTY.(roster := roster, comparing := map[id := guess])
  }

  /** The queue runs one write at a time, so each method is one step. */
  class Store {
    /** What the file holds. */
    var file: seq<Entry>
    /** The list in memory, once it was read. */
    var cached: Option<seq<Entry>>

    ghost predicate Valid()
      reads this
    {
      OneEach(file) && (cached.Some? ==> cached.value == file)
    }

    ghost function View(): Roster
      reads this
    {
      AsRoster(file)
    }

    constructor (file: seq<Entry>)
      requires OneEach(file)
      ensures Valid() && View() == AsRoster(file)
    {
      this.file, cached := file, None;
    }

    method Load() returns (entries: seq<Entry>)
      requires Valid()
      modifies this`cached
      ensures Valid() && entries == file
    {
      if cached.None? {
        cached := Some(file);
      }
      entries := cached.value;
    }

    /** `replace`: writes the whole list to the file, then remembers it. */
    method Replace(entries: seq<Entry>, key: Key, person: Person, writeFails: bool) returns (ok: bool)
      requires Valid() && entries == file
      modifies this
      ensures Valid() && ok == !writeFails
      ensures View() == if writeFails then old(View()) else old(View())[key := person]
    {
      var next := Without(entries, key) + [Entry(key, person)];
      ReplacedIs(entries, key, person);
      if writeFails {
        return false;
      }
      file := next;
      cached := Some(next);
      ok := true;
    }

    /** The first write of `checkPin`: the guess is counted before it is compared. */
    method ReserveGuess(key: Key, typed: string, writeFails: bool) returns (counted: Option<Guess>)
      requires Valid()
      modifies this
      ensures Valid()
      ensures counted.Some? <==> MayReserve(old(View()), key) && !writeFails
      ensures counted.Some? ==>
        counted.value == Guess(key, typed, old(View())[key].pin.value, old(View())[key].failures + 1)
      ensures View() == After(old(View()), Reserve(key, typed, writeFails))
      ensures View() == if counted.None? then old(View())
        else old(View())[key := old(View())[key].(failures := old(View())[key].failures + 1)]
    {
      var entries := Load();
      FindIs(entries, key);
      var found := Find(entries, key);
      if found.None? || found.value.pin.None? || found.value.failures >= MAX_PIN_FAILURES {
        return None;
      }
      var next := found.value.(failures := found.value.failures + 1);
      var ok := Replace(entries, key, next, writeFails);
      counted := if ok then Some(Guess(key, typed, found.value.pin.value, next.failures)) else None;
    }

    /** The write after a right PIN. */
    method ClearFailures(key: Key, writeFails: bool)
      requires Valid()
      modifies this
      ensures Valid()
      ensures forall id, guess: Guess :: guess.person == key ==>
        View() == Step(Comparing(old(View()), id, guess), Finish(id, true, writeFails)).roster
      ensures View() == if writeFails || key !in old(View()) then old(View())
        else old(View())[key := old(View())[key].(failures := 0)]
    {
      var entries := Load();
      FindIs(entries, key);
      var found := Find(entries, key);
      if found.Some? {
        var ok := Replace(entries, key, found.value.(failures := 0), writeFails);
      }
    }

    /** `savePin`: a new PIN, or none, starts with a clean count. */
    method SavePin(key: Key, pin: Option<PinHash>, writeFails: bool)
      requires Valid()
      modifies this
      ensures Valid()
      ensures View() == After(old(View()), Save(key, pin, writeFails))
      ensures View() == if writeFails || key !in old(View()) then old(View())
        else old(View())[key := Person(old(View())[key].name, pin, 0)]
    {
      var entries := Load();
      FindIs(entries, key);
      var found := Find(entries, key);
      if found.Some? {
        var ok := Replace(entries, key, found.value.(pin := pin, failures := 0), writeFails);
      }
    }

    /** The entry of a first join. */
    method Put(key: Key, person: Person, writeFails: bool)
      requires Valid()
      modifies this
      ensures Valid() && View() == After(old(View()), PinGuard.Put(key, person.(failures := 0), writeFails))
      ensures View() == if writeFails then old(View()) else old(View())[key := Person(person.name, person.pin, 0)]
    {
      var entries := Load();
      var ok := Replace(entries, key, person.(failures := 0), writeFails);
    }

    /** The first write of `join`: a known person keeps the PIN unless the join brings a new one, or none. */
    method Rename(key: Key, name: string, newPin: Option<Option<PinHash>>, writeFails: bool) returns (known: bool)
      requires Valid()
      modifies this
      ensures Valid() && known == (key in old(View()))
      ensures View() == After(old(View()), Rejoin(key, name, newPin, writeFails))
      ensures View() == if writeFails || !known then old(View())
        else if newPin.None? then old(View())[key := old(View())[key].(name := name)]
        else old(View())[key := Person(name, newPin.value, 0)]
    {
      var entries := Load();
      FindIs(entries, key);
      var found := Find(entries, key);
      known := found.Some?;
      if known {
        var named := found.value.(name := name);
        var next := if newPin.None? then named else named.(pin := newPin.value, failures := 0);
        var ok := Replace(entries, key, next, writeFails);
      }
    }

    /** `join`, once the request is checked: one write for a known person, and a new entry for another. */
    method Join(key: Key, name: string, newPin: Option<Option<PinHash>>, writeFails: bool)
      requires Valid()
      modifies this
      ensures Valid()
      ensures View() == After(old(View()), if key in old(View()) then Rejoin(key, name, newPin, writeFails)
        else PinGuard.Put(key, Person(name, if newPin.Some? then newPin.value else None, 0), writeFails))
      ensures !writeFails ==> key in View() && View()[key].name == name && View() - {key} == old(View()) - {key}
      ensures !writeFails && newPin.Some? ==> View()[key].pin == newPin.value && View()[key].failures == 0
      ensures !writeFails && newPin.None? ==>
        && (key in old(View()) ==> View()[key] == old(View())[key].(name := name))
        && (key !in old(View()) ==> View()[key] == Person(name, None, 0))
      ensures writeFails ==> View() == old(View())
    {
      var known := Rename(key, name, newPin, writeFails);
      if !known {
        Put(key, Person(name, if newPin.Some? then newPin.value else None, 0), writeFails);
      }
    }

    /** `unlockPin`. */
    method UnlockPin(key: Key, writeFails: bool) returns (found: bool)
      requires Valid()
      modifies this
      ensures Valid() && found == (key in old(View()))
      ensures View() == After(old(View()), Unlock(key, writeFails))
      ensures View() == if writeFails || !found then old(View())
        else old(View())[key := old(View())[key].(failures := 0)]
    {
      var entries := Load();
      FindIs(entries, key);
      var person := Find(entries, key);
      if person.Some? && person.value.failures > 0 {
        var ok := Replace(entries, key, person.value.(failures := 0), writeFails);
      }
      found := person.Some?;
    }

    /** A restart keeps the file and forgets the rest. */
    method Restart()
      requires Valid()
      modifies this`cached
      ensures Valid() && cached.None?
    {
      cached := None;
    }
  }
}

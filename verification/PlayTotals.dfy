/** Per-recording play totals: the foldable numbers of `aggregates.ts`, as values. */
module PlayTotals {
  import opened Wrappers

  /** One playback as a guest reports it. */
  datatype PlaybackEvent = PlaybackEvent(
    id: string,
    recordingUrl: string,
    completion: real,
    occurredAt: string,
    deviceId: Option<string>)

  /** A playback with the host's own arrival time. */
  datatype StoredEvent = StoredEvent(event: PlaybackEvent, receivedAt: int)

  datatype Totals = Totals(plays: nat, completionSum: real)

  type Rollup = map<string, Totals>

  function Clamp(x: real): (c: real)
    ensures 0.0 <= c <= 1.0
    ensures 0.0 <= x <= 1.0 ==> c == x
  {
    if x < 0.0 then 0.0 else if x > 1.0 then 1.0 else x
  }

  function Lookup(m: Rollup, url: string): Totals {
    if url in m then m[url] else Totals(0, 0.0)
  }

  /** Folds one event into the totals of its recording. */
  function Count(m: Rollup, e: StoredEvent): Rollup {
    var url := e.event.recordingUrl;
    var t := Lookup(m, url);
    m[url := Totals(t.plays + 1, t.completionSum + Clamp(e.event.completion))]
  }

  /** Folds events, oldest first, onto a seed. */
  function CountAll(m: Rollup, es: seq<StoredEvent>): Rollup {
    if es == [] then m else Count(CountAll(m, es[..|es| - 1]), es[|es| - 1])
  }

  /** The number of plays of one recording, counted one event at a time. */
  function Plays(es: seq<StoredEvent>, url: string): nat {
    if es == [] then 0
    else Plays(es[1..], url) + if es[0].event.recordingUrl == url then 1 else 0
  }

  function CompletionSum(es: seq<StoredEvent>, url: string): real {
    if es == [] then 0.0
    else CompletionSum(es[1..], url) + if es[0].event.recordingUrl == url then Clamp(es[0].event.completion) else 0.0
  }

  lemma CountCommutes(m: Rollup, a: StoredEvent, b: StoredEvent)
    ensures Count(Count(m, a), b) == Count(Count(m, b), a)
  {
  }

  lemma {:induction false} CountAllConcat(m: Rollup, a: seq<StoredEvent>, b: seq<StoredEvent>)
    ensures CountAll(m, a + b) == CountAll(CountAll(m, a), b)
  {
    if b == [] {
      assert a + b == a;
    } else {
      var n := |b| - 1;
      assert (a + b)[..|a + b| - 1] == a + b[..n];
      CountAllConcat(m, a, b[..n]);
    }
  }

  /** Counting one event early or late makes no difference. */
  lemma {:induction false} CountAllDelay(m: Rollup, e: StoredEvent, es: seq<StoredEvent>)
    ensures CountAll(Count(m, e), es) == Count(CountAll(m, es), e)
  {
    if es != [] {
      var n := |es| - 1;
      CountAllDelay(m, e, es[..n]);
      CountCommutes(CountAll(m, es[..n]), e, es[n]);
    }
  }

  /** The order in which two blocks of events are counted makes no difference. */
  lemma {:induction false} CountAllSwap(m: Rollup, a: seq<StoredEvent>, b: seq<StoredEvent>)
    ensures CountAll(m, a + b) == CountAll(m, b + a)
  {
    CountAllConcat(m, a, b);
    CountAllConcat(m, b, a);
    if a == [] {
    } else {
      var n := |a| - 1;
      CountAllDelay(CountAll(m, a[..n]), a[n], b);
      CountAllSwap(m, a[..n], b);
      CountAllConcat(m, a[..n], b);
      CountAllConcat(m, b, a[..n]);
    }
  }

  /** A block may move to the front of everything counted after the seed, or to its end. */
  lemma CountAllHoist(m: Rollup, a: seq<StoredEvent>, b: seq<StoredEvent>, c: seq<StoredEvent>)
    ensures CountAll(m, a + b + c) == CountAll(CountAll(m, b), a + c)
    ensures CountAll(m, a + b + c) == CountAll(CountAll(m, a + c), b)
  {
    CountAllSwap(m, a, b);
    CountAllConcat(m, a + b, c);
    CountAllConcat(m, b + a, c);
    CountAllPrefix(m, b, a, c);
    CountAllSwap(m, b, a + c);
    CountAllConcat(m, a + c, b);
  }

  lemma CountAllPrefix(m: Rollup, b: seq<StoredEvent>, a: seq<StoredEvent>, c: seq<StoredEvent>)
    ensures CountAll(m, b + a + c) == CountAll(CountAll(m, b), a + c)
    ensures CountAll(m, b + (a + c)) == CountAll(CountAll(m, b), a + c)
  {
    assert b + a + c == b + (a + c);
    CountAllConcat(m, b, a + c);
  }

  lemma {:induction false} PlaysConcat(a: seq<StoredEvent>, b: seq<StoredEvent>, url: string)
    ensures Plays(a + b, url) == Plays(a, url) + Plays(b, url)
    ensures CompletionSum(a + b, url) == CompletionSum(a, url) + CompletionSum(b, url)
  {
    if a == [] {
      assert a + b == b;
    } else {
      assert (a + b)[1..] == a[1..] + b;
      PlaysConcat(a[1..], b, url);
    }
  }

  /** What a fold means: each recording has the number of its plays, and the sum of their completions. */
  lemma {:induction false} CountAllMeaning(m: Rollup, es: seq<StoredEvent>, url: string)
    ensures Lookup(CountAll(m, es), url).plays == Lookup(m, url).plays + Plays(es, url)
    ensures Lookup(CountAll(m, es), url).completionSum == Lookup(m, url).completionSum + CompletionSum(es, url)
    ensures url in CountAll(m, es) <==> url in m || Plays(es, url) > 0
  {
    if es != [] {
      var n := |es| - 1;
      CountAllMeaning(m, es[..n], url);
      assert es == es[..n] + [es[n]];
      PlaysConcat(es[..n], [es[n]], url);
    }
  }

  /** The mean a reader is shown. */
  function AverageCompletion(t: Totals): real {
    if t.plays == 0 then 0.0 else t.completionSum / t.plays as real
  }

  lemma {:induction false} CompletionSumBounds(es: seq<StoredEvent>, url: string)
    ensures 0.0 <= CompletionSum(es, url) <= Plays(es, url) as real
  {
    if es != [] {
      CompletionSumBounds(es[1..], url);
    }
  }

  /** However odd the stored completions are, the mean shown is a fraction, and times the plays it is their sum. */
  lemma AverageIsAFraction(es: seq<StoredEvent>, url: string)
    ensures IsMean(AverageCompletion(Lookup(CountAll(map[], es), url)), Plays(es, url), CompletionSum(es, url))
  {
    CountAllMeaning(map[], es, url);
    CompletionSumBounds(es, url);
    MeanOf(Lookup(CountAll(map[], es), url), Plays(es, url), CompletionSum(es, url));
  }

  /** A fraction that makes up the sum, and nothing where there is nothing to divide by. */
  predicate IsMean(mean: real, plays: nat, sum: real) {
    0.0 <= mean <= 1.0 && mean * (plays as real) == sum && (plays == 0 ==> mean == 0.0)
  }

  lemma MeanOf(t: Totals, plays: nat, sum: real)
    requires t.plays == plays && t.completionSum == sum && 0.0 <= sum <= plays as real
    ensures IsMean(AverageCompletion(t), plays, sum)
  {
    if plays > 0 {
      QuotientIsAFraction(sum, plays as real);
    }
  }

  lemma QuotientIsAFraction(x: real, y: real)
    requires 0.0 <= x <= y && 0.0 < y
    ensures 0.0 <= x / y <= 1.0 && (x / y) * y == x
  {
    var q := x / y;
    assert x == q * y;
  }
}

/**
 * The token bucket each socket draws from (`createRateLimiter` in `eventHttp.ts`), over the reals.
 * A bucket's refill between two times is the difference of what the clock had paid out by each.
 */
module RateLimiter {
  type Socket = nat

  /** Times are in milliseconds. */
  datatype Bucket = Bucket(tokens: real, updated: real)

  /** What a rate pays out by a time. It never takes anything back. */
  ghost predicate Pays(credit: real -> real) {
    forall a, b :: a <= b ==> credit(a) <= credit(b)
  }

  function Min(a: real, b: real): real {
    if a < b then a else b
  }

  /** The bucket after a request, and whether it was let through. */
  function Drawn(burst: real, credit: real -> real, b: Bucket, at: real): (Bucket, bool) {
    var tokens := Min(burst, b.tokens + credit(at) - credit(b.updated));
    if tokens < 1.0 then (Bucket(tokens, at), false) else (Bucket(tokens - 1.0, at), true)
  }

  function Before(burst: real, buckets: map<Socket, Bucket>, socket: Socket, at: real): Bucket {
    if socket in buckets then buckets[socket] else Bucket(burst, at)
  }

  /** A bucket holds between nothing and a burst. */
  predicate Fits(burst: real, buckets: map<Socket, Bucket>, at: real) {
    burst >= 0.0 && forall s :: s in buckets ==> 0.0 <= buckets[s].tokens <= burst && buckets[s].updated <= at
  }

  // ---- Runs over many sockets ----

  datatype Request = Request(socket: Socket, at: real)

  /** A nondecreasing clock, from one time to another. */
  predicate Clocked(requests: seq<Request>, from: real, to: real) {
    && from <= to
    && (forall i, j :: 0 <= i < j < |requests| ==> requests[i].at <= requests[j].at)
    && (forall i :: 0 <= i < |requests| ==> from <= requests[i].at <= to)
  }

  /** The buckets after some requests. */
  function Buckets(burst: real, credit: real -> real, buckets: map<Socket, Bucket>,
      requests: seq<Request>): map<Socket, Bucket> {
    if requests == [] then buckets
    else
      var n := |requests| - 1;
      var before, r := Buckets(burst, credit, buckets, requests[..n]), requests[n];
      before[r.socket := Drawn(burst, credit, Before(burst, before, r.socket, r.at), r.at).0]
  }

  /** How many requests of one socket are let through. */
  function Admitted(burst: real, credit: real -> real, buckets: map<Socket, Bucket>, requests: seq<Request>,
      socket: Socket): nat {
    if requests == [] then 0
    else
      var n := |requests| - 1;
      var before, r := Buckets(burst, credit, buckets, requests[..n]), requests[n];
      Admitted(burst, credit, buckets, requests[..n], socket)
      + if r.socket == socket && Drawn(burst, credit, Before(burst, before, socket, r.at), r.at).1 then 1 else 0
  }

  lemma {:induction false} BucketsFit(burst: real, credit: real -> real, buckets: map<Socket, Bucket>,
      requests: seq<Request>, from: real, to: real)
    requires Pays(credit) && Fits(burst, buckets, from) && Clocked(requests, from, to)
    ensures Fits(burst, Buckets(burst, credit, buckets, requests), to)
  {
    if requests != [] {
      var n := |requests| - 1;
      BucketsFit(burst, credit, buckets, requests[..n], from, requests[n].at);
    }
  }

  /** What was let through and what is left come out of one burst and the refill since `from`. */
  predicate Covered(burst: real, credit: real -> real, admitted: nat, b: Bucket, from: real) {
    admitted as real + b.tokens <= burst + if b.updated <= from then 0.0 else credit(b.updated) - credit(from)
  }

  lemma SpentOne(burst: real, credit: real -> real, admitted: nat, b: Bucket, from: real, at: real)
    requires Pays(credit) && 0.0 <= b.tokens <= burst && b.updated <= at && from <= at
    requires Covered(burst, credit, admitted, b, from) && (b.updated < from ==> admitted == 0)
    ensures var (after, passed) := Drawn(burst, credit, b, at);
      after.updated == at && Covered(burst, credit, admitted + if passed then 1 else 0, after, from)
  {
    assert credit(from) <= credit(at) && credit(b.updated) <= credit(at);
  }

  lemma SpentNext(burst: real, credit: real -> real, before: map<Socket, Bucket>, admitted: nat, socket: Socket,
      from: real, at: real)
    requires Pays(credit) && Fits(burst, before, at) && from <= at
    requires if socket in before then
        Covered(burst, credit, admitted, before[socket], from) && (before[socket].updated < from ==> admitted == 0)
      else admitted == 0
    ensures var (after, passed) := Drawn(burst, credit, Before(burst, before, socket, at), at);
      after.updated == at && Covered(burst, credit, admitted + if passed then 1 else 0, after, from)
  {
    SpentOne(burst, credit, admitted, Before(burst, before, socket, at), from, at);
  }

  lemma {:induction false} Spent(burst: real, credit: real -> real, buckets: map<Socket, Bucket>,
      requests: seq<Request>, socket: Socket, from: real, to: real)
    requires Pays(credit) && Fits(burst, buckets, from) && Clocked(requests, from, to)
    ensures var after, admitted := Buckets(burst, credit, buckets, requests),
      Admitted(burst, credit, buckets, requests, socket);
      if socket in after then
        Covered(burst, credit, admitted, after[socket], from) && (after[socket].updated < from ==> admitted == 0)
      else admitted == 0
  {
    if requests != [] {
      var n := |requests| - 1;
      var r := requests[n];
      BucketsFit(burst, credit, buckets, requests[..n], from, r.at);
      Spent(burst, credit, buckets, requests[..n], socket, from, r.at);
      if r.socket == socket {
        var before := Buckets(burst, credit, buckets, requests[..n]);
        SpentNext(burst, credit, before, Admitted(burst, credit, buckets, requests[..n], socket), socket, from, r.at);
      }
    }
  }

  /** In any window, whatever other sockets do, one socket gets no more through than a burst and the refill. */
  lemma CreditBound(burst: real, credit: real -> real, buckets: map<Socket, Bucket>, requests: seq<Request>,
      socket: Socket, from: real, to: real)
    requires Pays(credit) && Fits(burst, buckets, from) && Clocked(requests, from, to)
    ensures Admitted(burst, credit, buckets, requests, socket) as real <= burst + credit(to) - credit(from)
  {
    Spent(burst, credit, buckets, requests, socket, from, to);
    BucketsFit(burst, credit, buckets, requests, from, to);
    var after := Buckets(burst, credit, buckets, requests);
    assert credit(from) <= credit(to);
    if socket in after {
      assert credit(after[socket].updated) <= credit(to);
    }
  }

  /** How many of the requests are of one socket. */
  function Asked(requests: seq<Request>, socket: Socket): nat {
    if requests == [] then 0
    else Asked(requests[..|requests| - 1], socket) + if requests[|requests| - 1].socket == socket then 1 else 0
  }

  /** Between any two requests of the socket the rate pays out a token. */
  ghost predicate Patient(credit: real -> real, requests: seq<Request>, socket: Socket) {
    forall i, j :: 0 <= i < j < |requests| && requests[i].socket == socket && requests[j].socket == socket ==>
      credit(requests[i].at) + 1.0 <= credit(requests[j].at)
  }

  predicate AskedAt(requests: seq<Request>, socket: Socket, at: real) {
    exists i :: 0 <= i < |requests| && requests[i].socket == socket && requests[i].at == at
  }

  lemma AskedAtMore(requests: seq<Request>, socket: Socket, at: real)
    requires requests != []
    ensures var n := |requests| - 1;
      AskedAt(requests, socket, at) <==>
        AskedAt(requests[..n], socket, at) || (requests[n].socket == socket && requests[n].at == at)
  {
    var n := |requests| - 1;
    if i :| 0 <= i < n && requests[..n][i].socket == socket && requests[..n][i].at == at {
      assert requests[i] == requests[..n][i];
    }
    if i :| 0 <= i < |requests| && requests[i].socket == socket && requests[i].at == at && i < n {
      assert requests[..n][i] == requests[i];
    }
  }

  lemma FrontIsPatient(credit: real -> real, requests: seq<Request>, socket: Socket, from: real, to: real)
    requires requests != [] && Clocked(requests, from, to) && Patient(credit, requests, socket)
    ensures var n := |requests| - 1;
      && Patient(credit, requests[..n], socket) && Clocked(requests[..n], from, requests[n].at)
      && from <= requests[n].at <= to
  {
  }

  lemma WaitedLong(credit: real -> real, requests: seq<Request>, socket: Socket, at: real)
    requires requests != [] && requests[|requests| - 1].socket == socket && Patient(credit, requests, socket)
    requires AskedAt(requests[..|requests| - 1], socket, at)
    ensures credit(at) + 1.0 <= credit(requests[|requests| - 1].at)
  {
    var n := |requests| - 1;
    var i :| 0 <= i < n && requests[..n][i].socket == socket && requests[..n][i].at == at;
    assert requests[i] == requests[..n][i];
  }

  lemma PatientPasses(burst: real, credit: real -> real, buckets: map<Socket, Bucket>, r: Request)
    requires burst >= 1.0 && Fits(burst, buckets, r.at)
    requires r.socket in buckets ==> credit(buckets[r.socket].updated) + 1.0 <= credit(r.at)
    ensures Drawn(burst, credit, Before(burst, buckets, r.socket, r.at), r.at).1
  {
  }

  /** A socket that waits out its tokens is never refused, whatever others do. */
  lemma {:induction false} PatientIsNeverRefused(burst: real, credit: real -> real, buckets: map<Socket, Bucket>,
      requests: seq<Request>, socket: Socket, from: real, to: real)
    requires Pays(credit) && Fits(burst, buckets, from) && Clocked(requests, from, to)
    requires burst >= 1.0 && socket !in buckets && Patient(credit, requests, socket)
    ensures Admitted(burst, credit, buckets, requests, socket) == Asked(requests, socket)
    ensures var after := Buckets(burst, credit, buckets, requests);
      socket in after ==> AskedAt(requests, socket, after[socket].updated)
  {
    if requests != [] {
      var n := |requests| - 1;
      var r, before := requests[n], Buckets(burst, credit, buckets, requests[..n]);
      FrontIsPatient(credit, requests, socket, from, to);
      PatientIsNeverRefused(burst, credit, buckets, requests[..n], socket, from, r.at);
      BucketsFit(burst, credit, buckets, requests[..n], from, r.at);
      if r.socket == socket {
        if socket in before {
          WaitedLong(credit, requests, socket, before[socket].updated);
        }
        PatientPasses(burst, credit, before, r);
        AskedAtMore(requests, socket, r.at);
      } else if socket in before {
        AskedAtMore(requests, socket, before[socket].updated);
      }
    }
  }

  // ---- Exactly when a request is refused ----

  /** How many requests of the socket were let through between two places of a run. */
  function Between(burst: real, credit: real -> real, buckets: map<Socket, Bucket>, requests: seq<Request>,
      socket: Socket, i: nat, j: nat): int
    requires i <= |requests| && j <= |requests|
  {
    Admitted(burst, credit, buckets, requests[..j], socket) - Admitted(burst, credit, buckets, requests[..i], socket)
  }

  /** In the window from some request on, the socket has used up all but what its bucket holds. */
  ghost predicate UsedUp(burst: real, credit: real -> real, buckets: map<Socket, Bucket>, requests: seq<Request>,
      socket: Socket, i: nat, b: Bucket)
    requires i < |requests|
  {
    var used := Between(burst, credit, buckets, requests, socket, i, |requests|);
    b.tokens == burst + credit(b.updated) - credit(requests[i].at) - used as real
  }

  /** A socket's bucket is what some window leaves of a burst and its refill. */
  lemma {:induction false} TokensAreLeft(burst: real, credit: real -> real, requests: seq<Request>, socket: Socket)
      returns (i: nat)
    requires socket in Buckets(burst, credit, map[], requests)
    ensures i < |requests| && UsedUp(burst, credit, map[], requests, socket, i,
      Buckets(burst, credit, map[], requests)[socket])
  {
    var n := |requests| - 1;
    var front, r := requests[..n], requests[n];
    var before := Buckets(burst, credit, map[], front);
    assert requests[..|requests|] == requests;
    if r.socket == socket {
      i := n;
      if socket in before {
        var k := TokensAreLeft(burst, credit, front, socket);
        var b := before[socket];
        assert front[..k] == requests[..k] && front[..n] == front;
        if b.tokens + credit(r.at) - credit(b.updated) < burst {
          i := k;
        }
      }
    } else {
      i := TokensAreLeft(burst, credit, front, socket);
      assert front[..i] == requests[..i] && front[..n] == front;
    }
  }

  /** One more request of the socket stays within a burst and the refill of the window from an earlier one. */
  ghost predicate Allowed(burst: real, credit: real -> real, requests: seq<Request>, r: Request, i: nat)
    requires i < |requests|
  {
    Between(burst, credit, map[], requests, r.socket, i, |requests|) as real + 1.0
      <= burst + credit(r.at) - credit(requests[i].at)
  }

  /**
   * A request is let through exactly when that keeps its socket within a burst and the refill in every window
   * that ends with it: no refusal comes too early, and none too late.
   */
  lemma PassesIff(burst: real, credit: real -> real, requests: seq<Request>, r: Request, from: real)
    requires Pays(credit) && burst >= 1.0 && Clocked(requests + [r], from, r.at)
    ensures var before := Buckets(burst, credit, map[], requests);
      var passes := Drawn(burst, credit, Before(burst, before, r.socket, r.at), r.at).1;
      passes <==> forall i :: 0 <= i < |requests| ==> Allowed(burst, credit, requests, r, i)
  {
    var before, all := Buckets(burst, credit, map[], requests), requests + [r];
    assert all[..|requests|] == requests;
    if Drawn(burst, credit, Before(burst, before, r.socket, r.at), r.at).1 {
      forall i | 0 <= i < |requests|
        ensures Allowed(burst, credit, requests, r, i)
      {
        WindowAllows(burst, credit, requests, r, from, i);
      }
    } else if r.socket in before {
      var i := TokensAreLeft(burst, credit, requests, r.socket);
      assert !Allowed(burst, credit, requests, r, i);
    }
  }

  lemma {:induction false} Continued(burst: real, credit: real -> real, buckets: map<Socket, Bucket>,
      a: seq<Request>, b: seq<Request>, socket: Socket)
    ensures Buckets(burst, credit, buckets, a + b)
      == Buckets(burst, credit, Buckets(burst, credit, buckets, a), b)
    ensures Admitted(burst, credit, buckets, a + b, socket) == Admitted(burst, credit, buckets, a, socket)
      + Admitted(burst, credit, Buckets(burst, credit, buckets, a), b, socket)
    decreases |b|
  {
    if b == [] {
      assert a + b == a;
    } else {
      var n := |b| - 1;
      Continued(burst, credit, buckets, a, b[..n], socket);
      assert (a + b)[..|a + b| - 1] == a + b[..n] && (a + b)[|a + b| - 1] == b[n];
    }
  }

  lemma ClockedParts(a: seq<Request>, b: seq<Request>, from: real, to: real)
    requires Clocked(a + b, from, to) && b != []
    ensures Clocked(a, from, b[0].at) && Clocked(b, b[0].at, to)
  {
    var all := a + b;
    assert forall k :: 0 <= k < |a| ==> all[k] == a[k];
    assert forall k :: 0 <= k < |b| ==> all[|a| + k] == b[k];
  }

  lemma BeforeLast(requests: seq<Request>, r: Request, i: nat)
    requires i < |requests|
    ensures requests[..i] + (requests[i..] + [r]) == requests + [r] && (requests[i..] + [r])[0] == requests[i]
  {
  }

  /** What was let through since a place, and the request that comes next. */
  lemma AdmittedSince(burst: real, credit: real -> real, requests: seq<Request>, r: Request, i: nat)
    requires i < |requests|
    ensures var before, after := Buckets(burst, credit, map[], requests[..i]), Buckets(burst, credit, map[], requests);
      Admitted(burst, credit, before, requests[i..] + [r], r.socket)
        == Between(burst, credit, map[], requests, r.socket, i, |requests|)
          + if Drawn(burst, credit, Before(burst, after, r.socket, r.at), r.at).1 then 1 else 0
  {
    Continued(burst, credit, map[], requests[..i], requests[i..] + [r], r.socket);
    BeforeLast(requests, r, i);
    assert (requests + [r])[..|requests|] == requests && requests[..|requests|] == requests;
  }

  lemma WindowAllows(burst: real, credit: real -> real, requests: seq<Request>, r: Request, from: real, i: nat)
    requires Pays(credit) && burst >= 1.0 && Clocked(requests + [r], from, r.at) && i < |requests|
    requires var before := Buckets(burst, credit, map[], requests);
      Drawn(burst, credit, Before(burst, before, r.socket, r.at), r.at).1
    ensures Allowed(burst, credit, requests, r, i)
  {
    var first, rest, start := requests[..i], requests[i..] + [r], requests[i].at;
    BeforeLast(requests, r, i);
    ClockedParts(first, rest, from, r.at);
    BucketsFit(burst, credit, map[], first, from, start);
    CreditBound(burst, credit, Buckets(burst, credit, map[], first), rest, r.socket, start, r.at);
    AdmittedSince(burst, credit, requests, r, i);
  }

  // ---- The rate in seconds ----

  /** So many tokens a second. */
  function PerSecond(rate: real): real -> real {
    (at: real) => at / 1000.0 * rate
  }

  lemma PerSecondGain(rate: real, from: real, to: real)
    ensures PerSecond(rate)(to) - PerSecond(rate)(from) == (to - from) / 1000.0 * rate
  {
    var x, y := from / 1000.0, to / 1000.0;
    assert y - x == (to - from) / 1000.0;
    assert (y - x) * rate == y * rate - x * rate;
  }

  lemma PerSecondPays(rate: real)
    requires rate >= 0.0
    ensures Pays(PerSecond(rate))
  {
    forall a: real, b: real | a <= b
      ensures PerSecond(rate)(a) <= PerSecond(rate)(b)
    {
      var x, y := a / 1000.0, b / 1000.0;
      assert (y - x) * rate >= 0.0;
    }
  }

  /** At most `burst + T * refill` requests of one socket are let through in any window of `T` seconds. */
  lemma WindowBound(burst: real, refillPerSecond: real, buckets: map<Socket, Bucket>, requests: seq<Request>,
      socket: Socket, from: real, seconds: real)
    requires refillPerSecond >= 0.0 && Fits(burst, buckets, from) && Clocked(requests, from, from + 1000.0 * seconds)
    ensures Admitted(burst, PerSecond(refillPerSecond), buckets, requests, socket) as real <= burst
      + seconds * refillPerSecond
  {
    var credit := PerSecond(refillPerSecond);
    PerSecondPays(refillPerSecond);
    CreditBound(burst, credit, buckets, requests, socket, from, from + 1000.0 * seconds);
    WindowGain(refillPerSecond, from, seconds);
  }

  lemma WindowGain(rate: real, from: real, seconds: real)
    ensures PerSecond(rate)(from + 1000.0 * seconds) - PerSecond(rate)(from) == seconds * rate
  {
    var to := from + 1000.0 * seconds;
    PerSecondGain(rate, from, to);
    var x := (to - from) / 1000.0;
    assert x == seconds;
    assert x * rate == seconds * rate;
  }

  /** The bucket arithmetic as the code writes it. */
  lemma DrawnIs(burst: real, rate: real, b: Bucket, at: real)
    ensures Drawn(burst, PerSecond(rate), b, at)
      == var tokens := Min(burst, b.tokens + (at - b.updated) / 1000.0 * rate);
         if tokens < 1.0 then (Bucket(tokens, at), false) else (Bucket(tokens - 1.0, at), true)
  {
    PerSecondGain(rate, b.updated, at);
    var credit := PerSecond(rate);
    assert b.tokens + credit(at) - credit(b.updated) == b.tokens + (credit(at) - credit(b.updated));
  }

  lemma OneRequest(burst: real, credit: real -> real, buckets: map<Socket, Bucket>, r: Request)
    ensures var (after, passed) := Drawn(burst, credit, Before(burst, buckets, r.socket, r.at), r.at);
      && Buckets(burst, credit, buckets, [r]) == buckets[r.socket := after]
      && (passed <==> Admitted(burst, credit, buckets, [r], r.socket) == 1)
  {
    assert [r][..0] == [];
    assert Buckets(burst, credit, buckets, []) == buckets && Admitted(burst, credit, buckets, [], r.socket) == 0;
  }

  /** The limiter: a bucket for each socket that ever asked. */
  class Limiter {
    const burst: real
    const refillPerSecond: real
    var buckets: map<Socket, Bucket>
    ghost var clock: real

    ghost predicate Valid()
      reads this
    {
      refillPerSecond >= 0.0 && Fits(burst, buckets, clock)
    }

    constructor (burst: real, refillPerSecond: real, ghost clock: real)
      requires burst >= 0.0 && refillPerSecond >= 0.0
      ensures Valid() && this.burst == burst && this.refillPerSecond == refillPerSecond && buckets == map[]
      ensures this.clock == clock
    {
      this.burst, this.refillPerSecond, buckets, this.clock := burst, refillPerSecond, map[], clock;
    }

    /** `take`: one step of the run above. */
    method Take(socket: Socket, at: real) returns (ok: bool)
      requires Valid() && clock <= at
      modifies this
      ensures Valid() && clock == at
      ensures buckets == Buckets(burst, PerSecond(refillPerSecond), old(buckets), [Request(socket, at)])
      ensures ok <==> Admitted(burst, PerSecond(refillPerSecond), old(buckets), [Request(socket, at)], socket) == 1
    {
      PerSecondPays(refillPerSecond);
      OneRequest(burst, PerSecond(refillPerSecond), buckets, Request(socket, at));
      BucketsFit(burst, PerSecond(refillPerSecond), buckets, [Request(socket, at)], at, at);
      var after;
      after, ok := Draw(Before(burst, buckets, socket, at), at);
      clock := at;
      buckets := buckets[socket := after];
    }

    method Draw(bucket: Bucket, at: real) returns (after: Bucket, ok: bool)
      ensures (after, ok) == Drawn(burst, PerSecond(refillPerSecond), bucket, at)
    {
      DrawnIs(burst, refillPerSecond, bucket, at);
      var tokens := Min(burst, bucket.tokens + (at - bucket.updated) / 1000.0 * refillPerSecond);
      ok := tokens >= 1.0;
      after := Bucket(if ok then tokens - 1.0 else tokens, at);
    }
  }
}

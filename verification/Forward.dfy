/** The pick-and-proxy loop of one request: try a backend, and move to another only while
    the client has seen nothing and the request can be replayed.
 */
module Forward {
  import opened Health
  import opened Balancer

  /** How one proxied call went: whether the upstream failed, and whether the client was
      sent anything while it ran. */
  datatype Trip = Trip(failed: bool, wrote: bool)

  datatype Event =
    | Acquired(backend: Backend)
    | Released(backend: Backend)
    | Reported(backend: Backend, success: bool)
    | Recorded

  /** How a request ends, by which backend B, or for want of one, by which cause C. */
  datatype Ending<B, C> =
    | Served(backend: B)
    | BadGateway(backend: B)
    | CutShort(backend: B)
    | Unavailable(cause: C)

  /** One slot taken, given back and reported on per attempt, in order. */
  ghost function AttemptEvents(tried: seq<Backend>, trips: nat -> Trip): seq<Event> {
    if tried == [] then []
    else
      var n := |tried| - 1;
      AttemptEvents(tried[..n], trips) + [Acquired(tried[n]), Released(tried[n]), Reported(tried[n], !trips(n).failed)]
  }

  /** Attempt i may be followed by another. */
  predicate MayRetry(i: int, trip: Trip, bodyless: bool, maxRetries: int) {
    trip.failed && !trip.wrote && bodyless && i < maxRetries
  }

  // ----- what the loop does to the pool, as a value -----

  /** What a backend shows of itself: learned state, slots in use, requests finished. */
  datatype View = View(state: Runtime, active: int, total: nat)

  type Views = map<Backend, View>

  ghost predicate Shows(bs: seq<Backend>, v: Views)
    reads bs
  {
    forall i :: 0 <= i < |bs| ==> bs[i] in v && v[bs[i]] == View(bs[i].State(), bs[i].activeConns, bs[i].totalRequests)
  }

  /** b is enabled, up and below its limit. */
  ghost predicate Free(b: Backend, v: View, now: int) {
    CanTake(b.upstream.enabled, b.upstream.maxConns, v.state, v.active, now)
  }

  ghost predicate CanTake(enabled: bool, maxConns: int, state: Runtime, active: int, now: int) {
    enabled && Available(state, now) && (maxConns == 0 || active < maxConns)
  }

  /** One attempt leaves no slot behind, one more finished request and one more result. */
  ghost function Attempted(v: View, trip: Trip, cfg: PassiveHealth, at: int): View {
    View(Proxied(v.state, !trip.failed, cfg, at), v.active, v.total + 1)
  }

  /** The views after every backend of `tried` had its attempt. */
  ghost function AfterAttempts(v: Views, tried: seq<Backend>, trips: nat -> Trip, cfg: PassiveHealth, doneAt: nat -> int): (r: Views)
    requires Viewed(tried, v)
    ensures r.Keys == v.Keys
  {
    if tried == [] then v
    else
      var n := |tried| - 1;
      var before := AfterAttempts(v, tried[..n], trips, cfg, doneAt);
      before[tried[n] := Attempted(before[tried[n]], trips(n), cfg, doneAt(n))]
  }

  ghost predicate NoRepeats<T>(tried: seq<T>) {
    forall i, j :: 0 <= i < j < |tried| ==> Differ(tried, i, j)
  }

  ghost predicate Differ<T>(tried: seq<T>, i: nat, j: nat)
    requires i < |tried| && j < |tried|
  {
    tried[i] != tried[j]
  }

  ghost predicate AllIn(tried: seq<Backend>, bs: seq<Backend>) {
    forall i :: 0 <= i < |tried| ==> tried[i] in bs
  }

  /** Distinct attempts do not interfere: each tried backend moved by exactly its own attempt
      and no other backend moved at all. */
  lemma {:induction false} AttemptsAreIndependent(v: Views, tried: seq<Backend>, trips: nat -> Trip,
                                                  cfg: PassiveHealth, doneAt: nat -> int, b: Backend)
    requires NoRepeats(tried) && b in v
    requires Viewed(tried, v)
    ensures b !in tried ==> AfterAttempts(v, tried, trips, cfg, doneAt)[b] == v[b]
    ensures forall i :: 0 <= i < |tried| && tried[i] == b ==>
              AfterAttempts(v, tried, trips, cfg, doneAt)[b] == Attempted(v[b], trips(i), cfg, doneAt(i))
  {
    if tried != [] {
      var n := |tried| - 1;
      forall i, j | 0 <= i < j < n ensures Differ(tried[..n], i, j) { assert Differ(tried, i, j); }
      forall i | 0 <= i < n ensures tried[i] != tried[n] { assert Differ(tried, i, n); }
      AttemptsAreIndependent(v, tried[..n], trips, cfg, doneAt, b);
      assert forall i :: 0 <= i < n ==> tried[..n][i] == tried[i];
      if tried[n] == b {
        assert b !in tried[..n];
      } else if b !in tried {
        assert b !in tried[..n];
      }
    }
  }

  /** Attempt i failed before the client saw anything, of a request without a body, with a retry left. */
  ghost predicate CleanAt(trips: nat -> Trip, i: nat, bodyless: bool, maxRetries: int) {
    trips(i).failed && !trips(i).wrote && bodyless && i + 1 <= maxRetries
  }

  /** b is off, down, ejected or at its limit. */
  ghost predicate NotFree(b: Backend, v: Views, now: int) {
    b in v && (!b.upstream.enabled || !v[b].state.healthy || Ejected(v[b].state, now)
               || (b.upstream.maxConns != 0 && v[b].active >= b.upstream.maxConns))
  }

  lemma FreeExactly(b: Backend, v: Views, now: int)
    requires b in v
    ensures Free(b, v[b], now) <==> !NotFree(b, v, now)
  {}

  method PickNext(pool: Pool, tried: seq<Backend>, now: int, score: Upstream -> real,
                  ghost ws: seq<int>, ghost cs: seq<int>, ghost v: Views)
    returns (r: PickResult, ghost cs': seq<int>)
    requires pool.Valid() && Weighs(pool.backends, ws) && Scored(pool.backends, cs) && Shows(pool.backends, v)
    modifies pool`counter, pool.backends`currentWeight
    ensures Scored(pool.backends, cs') && Shows(pool.backends, v)
    ensures r.Picked? ==> r.backend in pool.backends && r.backend !in tried && r.backend in v && Free(r.backend, v[r.backend], now)
    ensures !r.Picked? ==> forall i :: 0 <= i < |pool.backends| ==>
                             pool.backends[i] in tried || !Free(pool.backends[i], v[pool.backends[i]], now)
  {
    ghost var on, w;
    r, on, w, cs' := pool.Pick(tried, now, score, ws, cs);
  }

  method Attempt(pool: Pool, b: Backend, trip: Trip, cfg: PassiveHealth, at: int, ghost cs: seq<int>, ghost v: Views)
    returns (events: seq<Event>)
    requires b in pool.backends && b in v && Scored(pool.backends, cs) && Shows(pool.backends, v)
    modifies b`activeConns, b`totalRequests, b`proxyFails, b`ejectedUntil
    ensures Scored(pool.backends, cs) && Shows(pool.backends, v[b := Attempted(v[b], trip, cfg, at)])
    ensures events == [Acquired(b), Released(b), Reported(b, !trip.failed)]
  {
    b.Acquire();
    b.Release();
    var _ := b.RecordProxyResult(!trip.failed, cfg, at);
    events := [Acquired(b), Released(b), Reported(b, !trip.failed)];
  }

  ghost predicate Viewed(tried: seq<Backend>, v: Views) {
    forall i :: 0 <= i < |tried| ==> tried[i] in v
  }

  /** The attempts are distinct backends of the pool, each free when it was picked, and each of
      the first `upto` failed before the client saw anything, on a request that can be replayed. */
  ghost predicate SoundAttempts(bs: seq<Backend>, v: Views, tried: seq<Backend>, upto: nat, trips: nat -> Trip,
                                pickAt: nat -> int, bodyless: bool, maxRetries: int)
  {
    && Viewed(tried, v) && NoRepeats(tried) && AllIn(tried, bs) && upto <= |tried|
    && (forall i :: 0 <= i < |tried| ==> Free(tried[i], v[tried[i]], pickAt(i)))
    && (forall i :: 0 <= i < upto ==> MayRetry(i, trips(i), bodyless, maxRetries))
  }

  /** Sound attempts number at most MaxRetries + 1, and a request with a body gets one. */
  lemma AttemptsBounded(bs: seq<Backend>, v: Views, tried: seq<Backend>, trips: nat -> Trip, pickAt: nat -> int,
                        bodyless: bool, maxRetries: int)
    requires tried != [] && SoundAttempts(bs, v, tried, |tried| - 1, trips, pickAt, bodyless, maxRetries)
    ensures |tried| <= (if bodyless && maxRetries > 0 then maxRetries else 0) + 1
  {
    if |tried| > 1 {
      assert MayRetry(|tried| - 2, trips(|tried| - 2), bodyless, maxRetries);
    }
  }

  lemma OneMoreAttempt(bs: seq<Backend>, v: Views, tried: seq<Backend>, trips: nat -> Trip, pickAt: nat -> int,
                       bodyless: bool, maxRetries: int, b: Backend)
    requires SoundAttempts(bs, v, tried, |tried|, trips, pickAt, bodyless, maxRetries)
    requires b in bs && b !in tried && b in v && Free(b, v[b], pickAt(|tried|))
    ensures SoundAttempts(bs, v, tried + [b], |tried|, trips, pickAt, bodyless, maxRetries)
    ensures MayRetry(|tried|, trips(|tried|), bodyless, maxRetries) ==>
              SoundAttempts(bs, v, tried + [b], |tried| + 1, trips, pickAt, bodyless, maxRetries)
  {
    var more := tried + [b];
    assert forall i :: 0 <= i < |tried| ==> more[i] == tried[i];
    forall i, j | 0 <= i < j < |more| ensures Differ(more, i, j) {
      if j < |tried| { assert Differ(tried, i, j); }
    }
  }

  lemma OneMoreTrace(tried: seq<Backend>, trips: nat -> Trip, b: Backend)
    ensures AttemptEvents(tried + [b], trips)
         == AttemptEvents(tried, trips) + [Acquired(b), Released(b), Reported(b, !trips(|tried|).failed)]
  {
    assert (tried + [b])[..|tried|] == tried;
  }

  lemma OneMoreView(v: Views, tried: seq<Backend>, trips: nat -> Trip, cfg: PassiveHealth, doneAt: nat -> int, b: Backend)
    requires Viewed(tried, v) && b in v
    ensures Viewed(tried + [b], v)
    ensures AfterAttempts(v, tried + [b], trips, cfg, doneAt)
         == var now := AfterAttempts(v, tried, trips, cfg, doneAt);
            now[b := Attempted(now[b], trips(|tried|), cfg, doneAt(|tried|))]
  {
    assert (tried + [b])[..|tried|] == tried;
  }

  /** Nothing outside `tried` could have been picked. */
  ghost predicate Exhausted(bs: seq<Backend>, v: Views, tried: seq<Backend>, now: int)
    requires forall i :: 0 <= i < |bs| ==> bs[i] in v
  {
    forall i :: 0 <= i < |bs| ==> bs[i] in tried || !Free(bs[i], v[bs[i]], now)
  }

  method TryOne(pool: Pool, tried: seq<Backend>, trip: Trip, pickNow: int, doneNow: int, cfg: PassiveHealth,
                score: Upstream -> real, ghost ws: seq<int>, ghost cs: seq<int>, ghost v: Views)
    returns (r: PickResult, events: seq<Event>, ghost cs': seq<int>, ghost v': Views)
    requires pool.Valid() && Weighs(pool.backends, ws) && Scored(pool.backends, cs) && Shows(pool.backends, v)
    modifies pool`counter, pool.backends
    ensures Scored(pool.backends, cs') && Shows(pool.backends, v')
    ensures !r.Picked? ==> v' == v && events == [] && Exhausted(pool.backends, v, tried, pickNow)
    ensures r.Picked? ==>
              var b := r.backend;
              && b in pool.backends && b !in tried && b in v && Free(b, v[b], pickNow)
              && v' == v[b := Attempted(v[b], trip, cfg, doneNow)]
              && events == [Acquired(b), Released(b), Reported(b, !trip.failed)]
  {
    r, cs' := PickNext(pool, tried, pickNow, score, ws, cs, v);
    v', events := v, [];
    if r.Picked? {
      events := Attempt(pool, r.backend, trip, cfg, doneNow, cs', v);
      v' := v[r.backend := Attempted(v[r.backend], trip, cfg, doneNow)];
    }
  }

  function EndOf<B, C>(b: B, trip: Trip): Ending<B, C> {
    if !trip.failed then Served(b) else if trip.wrote then CutShort(b) else BadGateway(b)
  }

  /** A finished request: sound attempts, each reported once, the request recorded once, and an
      ending that says what the last attempt came to. It stops short of what it may still retry
      only when nothing is left to pick. */
  ghost predicate Finished(bs: seq<Backend>, v: Views, tried: seq<Backend>, trips: nat -> Trip, pickAt: nat -> int,
                           bodyless: bool, maxRetries: int, end: Ending<Backend, PickResult>, events: seq<Event>)
  {
    var n := |tried|;
    && SoundAttempts(bs, v, tried, if n == 0 then 0 else n - 1, trips, pickAt, bodyless, maxRetries)
    && events == AttemptEvents(tried, trips) + [Recorded]
    && (end.Unavailable? <==> n == 0)
    && (n > 0 ==> end == EndOf(tried[n - 1], trips(n - 1)))
    && (forall i :: 0 <= i < |bs| ==> bs[i] in v)
    && (n == 0 || MayRetry(n - 1, trips(n - 1), bodyless, maxRetries) ==> Exhausted(bs, v, tried, pickAt(n)))
  }

  lemma FinishedByPick(bs: seq<Backend>, v: Views, tried: seq<Backend>, trips: nat -> Trip, pickAt: nat -> int,
                       bodyless: bool, maxRetries: int, r: PickResult, events: seq<Event>)
    requires SoundAttempts(bs, v, tried, |tried|, trips, pickAt, bodyless, maxRetries)
    requires (forall i :: 0 <= i < |bs| ==> bs[i] in v) && Exhausted(bs, v, tried, pickAt(|tried|))
    requires events == AttemptEvents(tried, trips)
    ensures var end := if |tried| == 0 then Unavailable(r) else BadGateway(tried[|tried| - 1]);
            Finished(bs, v, tried, trips, pickAt, bodyless, maxRetries, end, events + [Recorded])
  {
    if tried != [] { assert MayRetry(|tried| - 1, trips(|tried| - 1), bodyless, maxRetries); }
  }

  lemma FinishedByTrip(bs: seq<Backend>, v: Views, tried: seq<Backend>, trips: nat -> Trip, pickAt: nat -> int,
                       bodyless: bool, maxRetries: int, b: Backend, events: seq<Event>)
    requires SoundAttempts(bs, v, tried + [b], |tried|, trips, pickAt, bodyless, maxRetries)
    requires forall i :: 0 <= i < |bs| ==> bs[i] in v
    requires !MayRetry(|tried|, trips(|tried|), bodyless, maxRetries) && events == AttemptEvents(tried + [b], trips)
    ensures Finished(bs, v, tried + [b], trips, pickAt, bodyless, maxRetries, EndOf(b, trips(|tried|)), events + [Recorded])
  {}

  method RunLoop(pool: Pool, bodyless: bool, maxRetries: int, cfg: PassiveHealth, score: Upstream -> real,
             trips: nat -> Trip, pickAt: nat -> int, doneAt: nat -> int,
             ghost ws: seq<int>, ghost cs: seq<int>, ghost v: Views)
    returns (end: Ending<Backend, PickResult>, tried: seq<Backend>, events: seq<Event>)
    requires pool.Valid() && Weighs(pool.backends, ws) && Scored(pool.backends, cs) && Shows(pool.backends, v)
    modifies pool, pool.backends
    ensures Finished(pool.backends, v, tried, trips, pickAt, bodyless, maxRetries, end, events)
    ensures Shows(pool.backends, AfterAttempts(v, tried, trips, cfg, doneAt))
  {
    tried, events := [], [];
    ghost var scores, views := cs, v;
    var attempt := 0;
    while true
      invariant attempt == |tried| && SoundAttempts(pool.backends, v, tried, |tried|, trips, pickAt, bodyless, maxRetries)
      invariant Scored(pool.backends, scores) && Shows(pool.backends, views)
      invariant views == AfterAttempts(v, tried, trips, cfg, doneAt)
      invariant events == AttemptEvents(tried, trips)
      decreases maxRetries - attempt
    {
      var trip := trips(attempt);
      var r, es;
      r, es, scores, views := TryOne(pool, tried, trip, pickAt(attempt), doneAt(attempt), cfg, score, ws, scores, views);
      if !r.Picked? {
        StillExhausted(pool.backends, v, tried, trips, cfg, doneAt, pickAt(attempt));
        FinishedByPick(pool.backends, v, tried, trips, pickAt, bodyless, maxRetries, r, events);
        events := events + [Recorded];
        end := if attempt == 0 then Unavailable(r) else BadGateway(tried[attempt - 1]);
        return;
      }
      var b := r.backend;
      AttemptsAreIndependent(v, tried, trips, cfg, doneAt, b);
      OneMoreAttempt(pool.backends, v, tried, trips, pickAt, bodyless, maxRetries, b);
      OneMoreTrace(tried, trips, b);
      OneMoreView(v, tried, trips, cfg, doneAt, b);
      ghost var before := tried;
      tried, events := tried + [b], events + es;
      if !MayRetry(attempt, trip, bodyless, maxRetries) {
        FinishedByTrip(pool.backends, v, before, trips, pickAt, bodyless, maxRetries, b, events);
        events := events + [Recorded];
        end := EndOf(b, trip);
        return;
      }
      attempt := attempt + 1;
    }
  }

  /** What a finished request comes to, in terms of what its attempts did. */
  lemma FinishedMeans(bs: seq<Backend>, v: Views, tried: seq<Backend>, trips: nat -> Trip, pickAt: nat -> int,
                      bodyless: bool, maxRetries: int, end: Ending<Backend, PickResult>, events: seq<Event>)
    requires Finished(bs, v, tried, trips, pickAt, bodyless, maxRetries, end, events)
    ensures forall i: nat :: i < |tried| ==> tried[i] in v && !NotFree(tried[i], v, pickAt(i))
    ensures forall i: nat :: i + 1 < |tried| ==> CleanAt(trips, i, bodyless, maxRetries)
    ensures tried != [] ==>
              var trip := trips(|tried| - 1);
              && (!trip.failed ==> end == Served(tried[|tried| - 1]))
              && (trip.failed && trip.wrote ==> end == CutShort(tried[|tried| - 1]))
              && (trip.failed && !trip.wrote ==> end == BadGateway(tried[|tried| - 1]))
    ensures tried == [] || (trips(|tried| - 1).failed && !trips(|tried| - 1).wrote && bodyless && |tried| <= maxRetries) ==>
              forall i :: 0 <= i < |bs| && bs[i] !in tried ==>
                NotFree(bs[i], v, pickAt(|tried|))
  {
    if tried != [] { CleanRetries(bs, v, tried, trips, pickAt, bodyless, maxRetries); }
    DryPool(bs, v, tried, pickAt(|tried|));
    forall i: nat | i < |tried| ensures tried[i] in v && !NotFree(tried[i], v, pickAt(i)) { FreeExactly(tried[i], v, pickAt(i)); }
  }

  lemma CleanRetries(bs: seq<Backend>, v: Views, tried: seq<Backend>, trips: nat -> Trip, pickAt: nat -> int,
                     bodyless: bool, maxRetries: int)
    requires tried != [] && SoundAttempts(bs, v, tried, |tried| - 1, trips, pickAt, bodyless, maxRetries)
    ensures forall i: nat :: i + 1 < |tried| ==> CleanAt(trips, i, bodyless, maxRetries)
  {
    forall i: nat | i + 1 < |tried| ensures CleanAt(trips, i, bodyless, maxRetries) {
      assert MayRetry(i, trips(i), bodyless, maxRetries);
    }
  }

  lemma DryPool(bs: seq<Backend>, v: Views, tried: seq<Backend>, now: int)
    requires forall i :: 0 <= i < |bs| ==> bs[i] in v
    ensures Exhausted(bs, v, tried, now) ==> forall i :: 0 <= i < |bs| && bs[i] !in tried ==> NotFree(bs[i], v, now)
  {
    if Exhausted(bs, v, tried, now) {
      forall i | 0 <= i < |bs| && bs[i] !in tried ensures NotFree(bs[i], v, now) {
        assert !Free(bs[i], v[bs[i]], now);
      }
    }
  }

  /** `bodyless` is whether the request can be replayed; `trips(i)`, `pickAt(i)` and `doneAt(i)`
      are the outcome of attempt i and the clock when it was picked and when it finished. */
  method Run(pool: Pool, bodyless: bool, maxRetries: int, cfg: PassiveHealth, score: Upstream -> real,
             trips: nat -> Trip, pickAt: nat -> int, doneAt: nat -> int,
             ghost ws: seq<int>, ghost cs: seq<int>, ghost v: Views)
    returns (end: Ending<Backend, PickResult>, tried: seq<Backend>, events: seq<Event>)
    requires pool.Valid() && Weighs(pool.backends, ws) && Scored(pool.backends, cs) && Shows(pool.backends, v)
    modifies pool, pool.backends
    ensures Finished(pool.backends, v, tried, trips, pickAt, bodyless, maxRetries, end, events)
    ensures forall i: nat :: i < |tried| ==> tried[i] in v && !NotFree(tried[i], v, pickAt(i))
    ensures forall i: nat :: i + 1 < |tried| ==> CleanAt(trips, i, bodyless, maxRetries)
    ensures tried != [] ==>
              var trip := trips(|tried| - 1);
              && (!trip.failed ==> end == Served(tried[|tried| - 1]))
              && (trip.failed && trip.wrote ==> end == CutShort(tried[|tried| - 1]))
              && (trip.failed && !trip.wrote ==> end == BadGateway(tried[|tried| - 1]))
    ensures tried == [] || (trips(|tried| - 1).failed && !trips(|tried| - 1).wrote && bodyless && |tried| <= maxRetries) ==>
              forall i :: 0 <= i < |pool.backends| && pool.backends[i] !in tried ==>
                NotFree(pool.backends[i], v, pickAt(|tried|))
    ensures Shows(pool.backends, AfterAttempts(v, tried, trips, cfg, doneAt))
  {
    end, tried, events := RunLoop(pool, bodyless, maxRetries, cfg, score, trips, pickAt, doneAt, ws, cs, v);
    FinishedMeans(pool.backends, v, tried, trips, pickAt, bodyless, maxRetries, end, events);
  }

  lemma StillExhausted(bs: seq<Backend>, v: Views, tried: seq<Backend>, trips: nat -> Trip,
                       cfg: PassiveHealth, doneAt: nat -> int, now: int)
    requires NoRepeats(tried) && Viewed(tried, v)
    requires forall i :: 0 <= i < |bs| ==> bs[i] in v
    requires Exhausted(bs, AfterAttempts(v, tried, trips, cfg, doneAt), tried, now)
    ensures Exhausted(bs, v, tried, now)
  {
    forall i | 0 <= i < |bs| && bs[i] !in tried ensures !Free(bs[i], v[bs[i]], now) {
      AttemptsAreIndependent(v, tried, trips, cfg, doneAt, bs[i]);
    }
  }
}

/** The live backends of one host, the four selection algorithms and the pick that
    filters, selects and charges one backend for a request.
 */
module Balancer {
  import opened Health
  import SW = SmoothWeighted

  /** key is scheme and address together: what the upstream addresses. */
  datatype Upstream = Upstream(key: string, weight: int, maxConns: int, enabled: bool)

  datatype Algorithm = RoundRobin | WeightedRoundRobin | LeastConnections | IPHash

  class Backend {
    const upstream: Upstream
    var healthy: bool
    var activeConns: int
    var totalRequests: nat
    var okStreak: nat
    var failStreak: nat
    var proxyFails: int
    var ejectedUntil: int
    var currentWeight: int

    ghost function State(): Runtime
      reads this
    {
      Runtime(healthy, okStreak, failStreak, proxyFails, ejectedUntil)
    }

    constructor (u: Upstream)
      ensures upstream == u && State() == NEW
      ensures activeConns == 0 && totalRequests == 0 && currentWeight == 0
    {
      upstream := u;
      healthy, okStreak, failStreak := true, 0, 0;
      proxyFails, ejectedUntil := 0, 0;
      activeConns, totalRequests, currentWeight := 0, 0, 0;
    }

    /** In-flight requests and the running score stay with the old backend. */
    method InheritFrom(old_: Backend)
      requires old_ != this
      modifies this
      ensures State() == old_.State() && totalRequests == old_.totalRequests
      ensures activeConns == old(activeConns) && currentWeight == old(currentWeight)
    {
      healthy := old_.healthy;
      totalRequests := old_.totalRequests;
      ejectedUntil := old_.ejectedUntil;
      proxyFails := old_.proxyFails;
      okStreak, failStreak := old_.okStreak, old_.failStreak;
    }

    method Ejected(now: int) returns (ejected: bool, remaining: int)
      ensures ejected <==> Health.Ejected(State(), now)
      ensures ejected ==> now + remaining == ejectedUntil && remaining > 0
      ensures !ejected ==> remaining == 0
    {
      if ejectedUntil == 0 { return false, 0; }
      var left := ejectedUntil - now;
      if left <= 0 { return false, 0; }
      return true, left;
    }

    method Available(now: int) returns (r: bool)
      ensures r <==> Health.Available(State(), now)
    {
      if !healthy { return false; }
      var ejected, _ := Ejected(now);
      return !ejected;
    }

    predicate HasCapacity()
      reads this
    {
      upstream.maxConns == 0 || activeConns < upstream.maxConns
    }

    method RecordProbe(success: bool, healthyThreshold: int, unhealthyThreshold: int) returns (changed: bool)
      modifies `healthy, `okStreak, `failStreak
      ensures State() == Probed(old(State()), success, healthyThreshold, unhealthyThreshold)
      ensures changed <==> healthy != old(healthy)
    {
      if success {
        failStreak := 0;
        okStreak := okStreak + 1;
        if !healthy && okStreak >= healthyThreshold {
          healthy := true;
          return true;
        }
        return false;
      }
      okStreak := 0;
      failStreak := failStreak + 1;
      if healthy && failStreak >= unhealthyThreshold {
        healthy := false;
        return true;
      }
      return false;
    }

    method RecordProxyResult(success: bool, cfg: PassiveHealth, now: int) returns (changed: bool)
      modifies `proxyFails, `ejectedUntil
      ensures State() == Proxied(old(State()), success, cfg, now)
      ensures changed == (cfg.enabled && if success then old(ejectedUntil) != 0
                                         else old(proxyFails) + 1 >= cfg.maxFails && !Health.Ejected(old(State()), now))
    {
      if !cfg.enabled { return false; }
      if success {
        proxyFails := 0;
        changed := ejectedUntil != 0;
        ejectedUntil := 0;
        return;
      }
      proxyFails := proxyFails + 1;
      if proxyFails < cfg.maxFails { return false; }
      proxyFails := 0;
      var deadline := now + cfg.ejectFor;
      var wasEjected, _ := Ejected(now);
      ejectedUntil := deadline;
      return !wasEjected;
    }

    method ClearEjection()
      modifies `proxyFails, `ejectedUntil
      ensures State() == Cleared(old(State()))
    {
      proxyFails, ejectedUntil := 0, 0;
    }

    method Acquire()
      modifies `activeConns
      ensures activeConns == old(activeConns) + 1
    {
      activeConns := activeConns + 1;
    }

    method Release()
      modifies `activeConns, `totalRequests
      ensures activeConns == old(activeConns) - 1 && totalRequests == old(totalRequests) + 1
    {
      activeConns := activeConns - 1;
      totalRequests := totalRequests + 1;
    }
  }

  ghost predicate Distinct(bs: seq<Backend>) {
    forall i, j :: 0 <= i < j < |bs| ==> Differ(bs, i, j)
  }

  ghost predicate Differ(bs: seq<Backend>, i: nat, j: nat)
    requires i < |bs| && j < |bs|
  {
    bs[i] != bs[j]
  }

  // ----- candidates as marks on the pool -----

  /** `idx` lists, in pool order, exactly the marked positions. */
  ghost predicate Lists(on: seq<bool>, idx: seq<nat>) {
    && (forall j :: 0 <= j < |idx| ==> idx[j] < |on| && on[idx[j]])
    && (forall j, k :: 0 <= j < k < |idx| ==> Below(idx, j, k))
    && (forall i :: 0 <= i < |on| && on[i] ==> i in idx)
  }

  ghost predicate Below(idx: seq<nat>, j: nat, k: nat)
    requires j < |idx| && k < |idx|
  {
    idx[j] < idx[k]
  }

  /** `candidates` are the marked backends of `bs`, in pool order. */
  ghost predicate Candidates(bs: seq<Backend>, on: seq<bool>, idx: seq<nat>, candidates: seq<Backend>) {
    && |on| == |bs| && Lists(on, idx) && |idx| == |candidates|
    && forall j :: 0 <= j < |idx| ==> candidates[j] == bs[idx[j]]
  }

  /** First pool position not covered by the first j candidates. */
  ghost function After(idx: seq<nat>, j: nat): nat
    requires j <= |idx|
  {
    if j == 0 then 0 else idx[j - 1] + 1
  }

  lemma GapIsOff(on: seq<bool>, idx: seq<nat>, j: nat, i: nat)
    requires Lists(on, idx) && j <= |idx| && i < |on|
    requires After(idx, j) <= i && (j < |idx| ==> i < idx[j])
    ensures !on[i]
  {
    forall k | 0 <= k < |idx| ensures idx[k] != i {
      if k + 1 < j { assert Below(idx, k, j - 1); } else if j < k { assert Below(idx, j, k); }
    }
  }

  lemma NextAfter(on: seq<bool>, idx: seq<nat>, j: nat)
    requires Lists(on, idx) && j < |idx|
    ensures After(idx, j) <= idx[j]
  {
    if j > 0 { assert Below(idx, j - 1, j); }
  }

  /** `ws` are the configured weights of `bs`. */
  ghost predicate Weighs(bs: seq<Backend>, ws: seq<int>) {
    |ws| == |bs| && forall i :: 0 <= i < |bs| ==> bs[i].upstream.weight == ws[i]
  }

  /** `cs` are the running scores of `bs`. */
  ghost predicate Scored(bs: seq<Backend>, cs: seq<int>)
    reads bs
  {
    |cs| == |bs| && forall i :: 0 <= i < |bs| ==> bs[i].currentWeight == cs[i]
  }

  lemma {:induction false} SumSkips(v: seq<int>, on: seq<bool>, lo: nat, hi: nat)
    requires lo <= hi <= |v| == |on|
    requires forall i :: lo <= i < hi ==> !on[i]
    ensures SW.Sum(v, on, hi) == SW.Sum(v, on, lo)
  {
    if lo < hi { SumSkips(v, on, lo, hi - 1); }
  }

  lemma {:induction false} MembersSkip(on: seq<bool>, lo: nat, hi: nat)
    requires lo <= hi <= |on|
    requires forall i :: lo <= i < hi ==> !on[i]
    ensures SW.Members(on, hi) == SW.Members(on, lo)
  {
    if lo < hi { MembersSkip(on, lo, hi - 1); }
  }

  lemma {:induction false} MembersBefore(on: seq<bool>, idx: seq<nat>, j: nat)
    requires Lists(on, idx) && j <= |idx|
    ensures SW.Members(on, if j < |idx| then idx[j] else |on|) == j
  {
    var hi := if j < |idx| then idx[j] else |on|;
    if j > 0 {
      MembersBefore(on, idx, j - 1);
    }
    forall i: nat | After(idx, j) <= i < hi ensures !on[i] { GapIsOff(on, idx, j, i); }
    if j < |idx| { NextAfter(on, idx, j); }
    MembersSkip(on, After(idx, j), hi);
  }

  // ----- the selection algorithms -----

  method AddScore(b: Backend, delta: int, ghost bs: seq<Backend>, ghost cs: seq<int>, ghost k: nat)
    requires Distinct(bs) && Scored(bs, cs) && k < |bs| && b == bs[k]
    modifies b`currentWeight
    ensures Scored(bs, cs[k := cs[k] + delta])
  {
    forall j | 0 <= j < |bs| && j != k ensures bs[j] != b {
      assert if j < k then Differ(bs, j, k) else Differ(bs, k, j);
    }
    b.currentWeight := b.currentWeight + delta;
  }

  /** The first j candidates have been raised; w leads among them. */
  ghost predicate RaisedTo(ws: seq<int>, cs: seq<int>, on: seq<bool>, k: nat, cur: seq<int>, total: int, w: nat) {
    && |ws| == |cs| == |on| == |cur| && k <= |on|
    && total == SW.Sum(ws, on, k)
    && (forall i :: 0 <= i < |cur| ==> cur[i] == cs[i] + (if on[i] && i < k then ws[i] else 0))
    && (w < k ==> on[w])
    && (w < k ==> forall i :: 0 <= i < k && on[i] ==> cur[i] <= cur[w])
    && (w < k ==> forall i :: 0 <= i < w && on[i] ==> cur[i] < cur[w])
  }

  lemma RaiseNext(ws: seq<int>, cs: seq<int>, on: seq<bool>, idx: seq<nat>, j: nat,
                  cur: seq<int>, total: int, w: nat, cur': seq<int>, w': nat)
    requires Lists(on, idx) && j < |idx| && RaisedTo(ws, cs, on, After(idx, j), cur, total, w)
    requires cur' == cur[idx[j] := cur[idx[j]] + ws[idx[j]]]
    requires Leading(idx, j, w)
    requires w' == if j == 0 || cur'[idx[j]] > cur'[w] then idx[j] else w
    ensures RaisedTo(ws, cs, on, After(idx, j + 1), cur', total + ws[idx[j]], w')
    ensures Leading(idx, j + 1, w')
  {
    var k := idx[j];
    forall i: nat | After(idx, j) <= i < k ensures !on[i] { GapIsOff(on, idx, j, i); }
    NextAfter(on, idx, j);
    SumSkips(ws, on, After(idx, j), k);
  }

  lemma ChargeWinner(ws: seq<int>, cs: seq<int>, on: seq<bool>, idx: seq<nat>,
                     cur: seq<int>, total: int, w: nat, cs': seq<int>)
    requires Lists(on, idx) && idx != [] && RaisedTo(ws, cs, on, After(idx, |idx|), cur, total, w)
    requires w < After(idx, |idx|) && cs' == cur[w := cur[w] - total]
    ensures SW.Selects(ws, cs, on, w, cs')
  {
    forall i: nat | After(idx, |idx|) <= i < |on| ensures !on[i] { GapIsOff(on, idx, |idx|, i); }
    SumSkips(ws, on, After(idx, |idx|), |on|);
  }

  ghost predicate Leading(idx: seq<nat>, j: nat, w: nat)
    requires j <= |idx| && idx != []
  {
    if j == 0 then w == idx[0] else w < After(idx, j)
  }

  method RaiseOne(b: Backend, best: Backend, first: bool, ghost bs: seq<Backend>, ghost cs: seq<int>, ghost k: nat, ghost w: nat)
    returns (best': Backend, ghost w': nat, ghost cs': seq<int>)
    requires Distinct(bs) && Scored(bs, cs) && k < |bs| && b == bs[k] && w < |bs| && best == bs[w]
    modifies b`currentWeight
    ensures cs' == cs[k := cs[k] + b.upstream.weight] && Scored(bs, cs')
    ensures w' == (if first || cs'[k] > cs'[w] then k else w) && best' == bs[w']
  {
    AddScore(b, b.upstream.weight, bs, cs, k);
    cs' := cs[k := cs[k] + b.upstream.weight];
    if first || b.currentWeight > best.currentWeight {
      best', w' := b, k;
    } else {
      best', w' := best, w;
    }
  }

  /** Up to the first position past j candidates all are raised, and w leads. */
  ghost predicate Led(ws: seq<int>, cs: seq<int>, on: seq<bool>, idx: seq<nat>, j: nat, cur: seq<int>, total: int, w: nat)
    requires j <= |idx| && idx != []
  {
    exists k :: k == After(idx, j) && RaisedTo(ws, cs, on, k, cur, total, w) && Leading(idx, j, w)
  }

  lemma LedFirst(ws: seq<int>, cs: seq<int>, on: seq<bool>, idx: seq<nat>)
    requires Lists(on, idx) && idx != [] && |ws| == |cs| == |on|
    ensures Led(ws, cs, on, idx, 0, cs, 0, idx[0])
  {
    assert RaisedTo(ws, cs, on, After(idx, 0), cs, 0, idx[0]);
  }

  /** Raises candidate j and keeps track of the leader. */
  method RaiseStep(b: Backend, best: Backend, first: bool, ghost bs: seq<Backend>, ghost on: seq<bool>, ghost idx: seq<nat>, ghost j: nat,
                   ghost ws: seq<int>, ghost cs: seq<int>, ghost cur: seq<int>, ghost total: int, ghost w: nat)
    returns (best': Backend, ghost w': nat, ghost cur': seq<int>)
    requires Distinct(bs) && Lists(on, idx) && |on| == |bs| && j < |idx| && b == bs[idx[j]] && first == (j == 0)
    requires Weighs(bs, ws) && Scored(bs, cur) && w < |bs| && best == bs[w]
    requires Led(ws, cs, on, idx, j, cur, total, w)
    modifies b`currentWeight
    ensures w' < |bs| && best' == bs[w'] && Scored(bs, cur')
    ensures Led(ws, cs, on, idx, j + 1, cur', total + b.upstream.weight, w')
  {
    assert b.upstream.weight == ws[idx[j]];
    best', w', cur' := RaiseOne(b, best, first, bs, cur, idx[j], w);
    RaiseNext(ws, cs, on, idx, j, cur, total, w, cur', w');
    assert RaisedTo(ws, cs, on, After(idx, j + 1), cur', total + ws[idx[j]], w');
  }

  method RaiseAll(candidates: seq<Backend>, ghost bs: seq<Backend>, ghost on: seq<bool>, ghost idx: seq<nat>,
                  ghost ws: seq<int>, ghost cs: seq<int>)
    returns (best: Backend, total: int, ghost w: nat, ghost cur: seq<int>)
    requires Distinct(bs) && Candidates(bs, on, idx, candidates) && candidates != []
    requires Weighs(bs, ws) && Scored(bs, cs)
    modifies bs`currentWeight
    ensures w < |bs| && best == bs[w] && Scored(bs, cur)
    ensures Led(ws, cs, on, idx, |idx|, cur, total, w)
  {
    total := 0;
    best, w, cur := candidates[0], idx[0], cs;
    LedFirst(ws, cs, on, idx);
    for j := 0 to |candidates|
      invariant w < |bs| && best == bs[w] && Scored(bs, cur)
      invariant Led(ws, cs, on, idx, j, cur, total, w)
    {
      var b := candidates[j];
      assert b == bs[idx[j]] && b in bs;
      best, w, cur := RaiseStep(b, best, j == 0, bs, on, idx, j, ws, cs, cur, total, w);
      total := total + b.upstream.weight;
    }
  }

  /** Raises every candidate and charges the winner: the pool's scores move by one selection. */
  method SelectWeighted(candidates: seq<Backend>, ghost bs: seq<Backend>, ghost on: seq<bool>, ghost idx: seq<nat>,
                        ghost ws: seq<int>, ghost cs: seq<int>)
    returns (best: Backend, ghost w: nat, ghost cs': seq<int>)
    requires Distinct(bs) && Candidates(bs, on, idx, candidates) && candidates != []
    requires Weighs(bs, ws) && Scored(bs, cs)
    modifies bs`currentWeight
    ensures w < |bs| && best == bs[w] && Scored(bs, cs')
    ensures SW.Selects(ws, cs, on, w, cs')
  {
    var total;
    ghost var cur;
    best, total, w, cur := RaiseAll(candidates, bs, on, idx, ws, cs);
    AddScore(best, -total, bs, cur, w);
    cs' := cur[w := cur[w] - total];
    ChargeWinner(ws, cs, on, idx, cur, total, w, cs');
  }

  /** The candidate after `counter` others, counting round and round. */
  ghost predicate Rotates(on: seq<bool>, counter: nat, w: nat) {
    && w < |on| && on[w] && SW.Members(on, |on|) > 0
    && SW.Members(on, w) == counter % SW.Members(on, |on|)
  }

  method SelectRotating(candidates: seq<Backend>, counter: nat, ghost bs: seq<Backend>, ghost on: seq<bool>, ghost idx: seq<nat>)
    returns (best: Backend, ghost w: nat)
    requires Candidates(bs, on, idx, candidates) && candidates != []
    ensures w < |bs| && best == bs[w] && Rotates(on, counter, w)
  {
    var n := counter % |candidates|;
    best, w := candidates[n], idx[n];
    MembersBefore(on, idx, n);
    MembersBefore(on, idx, |idx|);
  }

  /** With fixed candidates, as many consecutive rotations as there are candidates all go to
      different ones. */
  lemma RotationNeverRepeats(on: seq<bool>, counter: nat, d: nat, w: nat, x: nat)
    requires Rotates(on, counter, w) && Rotates(on, counter + d, x) && 0 < d < SW.Members(on, |on|)
    ensures w != x
  {
    var m := SW.Members(on, |on|);
    if w == x {
      var q := (counter + d) / m - counter / m;
      assert m * q == d;
      SmallMultiple(m, q);
    }
  }

  predicate Lighter(a: Backend, b: Backend)
    reads a, b
  {
    a.activeConns < b.activeConns
    || (a.activeConns == b.activeConns && a.upstream.weight > b.upstream.weight)
  }

  /** No candidate below k is lighter than w, and w is lighter than every one before it. */
  ghost predicate LeastLoaded(bs: seq<Backend>, on: seq<bool>, w: nat, k: nat)
    reads bs
  {
    && |on| == |bs| && w < |bs| && on[w] && k <= |bs|
    && (forall i :: 0 <= i < k && on[i] ==> !Lighter(bs[i], bs[w]))
    && (forall i :: 0 <= i < w && on[i] ==> Lighter(bs[w], bs[i]))
  }

  method SelectLeastConnections(candidates: seq<Backend>, ghost bs: seq<Backend>, ghost on: seq<bool>, ghost idx: seq<nat>)
    returns (best: Backend, ghost w: nat)
    requires Candidates(bs, on, idx, candidates) && candidates != []
    ensures w < |bs| && best == bs[w] && LeastLoaded(bs, on, w, |bs|)
    ensures forall i :: 0 <= i < |bs| && on[i] ==> best.activeConns <= bs[i].activeConns
    ensures forall i :: 0 <= i < |bs| && on[i] && bs[i].activeConns == best.activeConns ==>
              best.upstream.weight > bs[i].upstream.weight || (best.upstream.weight == bs[i].upstream.weight && w <= i)
  {
    best, w := candidates[0], idx[0];
    var bestConns := best.activeConns;
    forall i: nat | i < idx[0] ensures !on[i] { GapIsOff(on, idx, 0, i); }
    for j := 1 to |candidates|
      invariant w < After(idx, j) && best == bs[w] && bestConns == best.activeConns
      invariant LeastLoaded(bs, on, w, After(idx, j))
    {
      var b := candidates[j];
      NextAfter(on, idx, j);
      forall i: nat | After(idx, j) <= i < idx[j] ensures !on[i] { GapIsOff(on, idx, j, i); }
      var conns := b.activeConns;
      if conns < bestConns {
        best, bestConns, w := b, conns, idx[j];
      } else if conns == bestConns && b.upstream.weight > best.upstream.weight {
        best, w := b, idx[j];
      }
    }
    forall i: nat | After(idx, |idx|) <= i < |on| ensures !on[i] { GapIsOff(on, idx, |idx|, i); }
  }

  /** w has the highest score of the marked backends below k, the earliest such. */
  ghost predicate Rendezvous(bs: seq<Backend>, on: seq<bool>, score: Upstream -> real, w: nat, k: nat) {
    && |on| == |bs| && w < |bs| && on[w] && k <= |bs|
    && (forall i :: 0 <= i < k && on[i] ==> score(bs[i].upstream) <= score(bs[w].upstream))
    && (forall i :: 0 <= i < w && on[i] ==> score(bs[i].upstream) < score(bs[w].upstream))
  }

  /** `score` is the client's weighted rendezvous score of each upstream. */
  method SelectByClient(candidates: seq<Backend>, score: Upstream -> real,
                        ghost bs: seq<Backend>, ghost on: seq<bool>, ghost idx: seq<nat>)
    returns (best: Backend, ghost w: nat)
    requires Candidates(bs, on, idx, candidates) && candidates != []
    ensures w < |bs| && best == bs[w] && Rendezvous(bs, on, score, w, |bs|)
  {
    best, w := candidates[0], idx[0];
    var bestScore := score(best.upstream);
    forall i: nat | i < idx[0] ensures !on[i] { GapIsOff(on, idx, 0, i); }
    for j := 1 to |candidates|
      invariant w < After(idx, j) && best == bs[w] && bestScore == score(best.upstream)
      invariant Rendezvous(bs, on, score, w, After(idx, j))
    {
      var b := candidates[j];
      NextAfter(on, idx, j);
      forall i: nat | After(idx, j) <= i < idx[j] ensures !on[i] { GapIsOff(on, idx, j, i); }
      var s := score(b.upstream);
      if s > bestScore {
        best, bestScore, w := b, s, idx[j];
      }
    }
    forall i: nat | After(idx, |idx|) <= i < |on| ensures !on[i] { GapIsOff(on, idx, |idx|, i); }
  }

  /** Rendezvous choice is stable: marking off any candidates but the winner leaves the client
      where it was, and no two choices are possible for the same marks. */
  lemma RendezvousStable(bs: seq<Backend>, on: seq<bool>, fewer: seq<bool>, score: Upstream -> real, w: nat, x: nat)
    requires Rendezvous(bs, on, score, w, |bs|) && Rendezvous(bs, fewer, score, x, |bs|)
    requires forall i :: 0 <= i < |bs| && fewer[i] ==> on[i]
    ensures fewer[w] ==> x == w
    ensures x != w ==> on[w] && !fewer[w]
  {
    if fewer[w] {
      assert score(bs[w].upstream) == score(bs[x].upstream);
    }
  }

  // ----- the pool -----

  datatype PickResult = NoBackends | NoHealthyBackend | Picked(backend: Backend)

  class Pool {
    const hostID: int
    const algorithm: Algorithm
    const backends: seq<Backend>
    var counter: nat

    ghost predicate Valid() { Distinct(backends) }

    /** The backend is enabled, up, below its limit and not tried before. */
    static ghost predicate Eligible(b: Backend, exclude: seq<Backend>, now: int)
      reads b
    {
      b.upstream.enabled && Health.Available(b.State(), now) && b.HasCapacity() && b !in exclude
    }

    /** An enabled backend is passed over when down, ejected at this moment, at its limit if it
        has one, or tried before. */
    static method CanTake(b: Backend, exclude: seq<Backend>, now: int) returns (ok: bool)
      requires b.upstream.enabled
      ensures ok == Eligible(b, exclude, now)
      ensures !ok <==>
              || !b.healthy || (b.ejectedUntil != 0 && now < b.ejectedUntil)
              || (b.upstream.maxConns != 0 && b.upstream.maxConns <= b.activeConns)
              || exists i :: 0 <= i < |exclude| && exclude[i] == b
    {
      var available := b.Available(now);
      ok := available && b.HasCapacity() && b !in exclude;
    }

    /** The marks of the first n backends say which are eligible. */
    static ghost predicate Marks(bs: seq<Backend>, n: nat, on: seq<bool>, exclude: seq<Backend>, now: int)
      reads bs
    {
      |on| == n <= |bs| && forall k :: 0 <= k < n ==> on[k] == Eligible(bs[k], exclude, now)
    }

    static ghost predicate NoneEnabled(bs: seq<Backend>, n: nat)
      requires n <= |bs|
    {
      forall k :: 0 <= k < n ==> !bs[k].upstream.enabled
    }

    static lemma MarksMore(bs: seq<Backend>, n: nat, on: seq<bool>, exclude: seq<Backend>, now: int, ok: bool)
      requires n < |bs| && Marks(bs, n, on, exclude, now) && ok == Eligible(bs[n], exclude, now)
      ensures Marks(bs, n + 1, on + [ok], exclude, now)
    {}

    method Filter(exclude: seq<Backend>, now: int)
      returns (candidates: seq<Backend>, enabled: nat, ghost on: seq<bool>, ghost idx: seq<nat>)
      ensures Candidates(backends, on, idx, candidates)
      ensures Marks(backends, |backends|, on, exclude, now)
      ensures enabled == 0 <==> NoneEnabled(backends, |backends|)
    {
      candidates, enabled, on, idx := [], 0, [], [];
      for i := 0 to |backends|
        invariant Candidates(backends[..i], on, idx, candidates)
        invariant Marks(backends, i, on, exclude, now)
        invariant enabled == 0 <==> NoneEnabled(backends, i)
      {
        var b := backends[i];
        var ok := false;
        if b.upstream.enabled {
          enabled := enabled + 1;
          ok := CanTake(b, exclude, now);
        }
        MarksMore(backends, i, on, exclude, now, ok);
        candidates, on, idx := Consider(b, ok, i, candidates, on, idx);
      }
      assert backends[..|backends|] == backends;
    }

    method Consider(b: Backend, ok: bool, ghost i: nat, candidates: seq<Backend>, ghost on: seq<bool>, ghost idx: seq<nat>)
      returns (candidates': seq<Backend>, ghost on': seq<bool>, ghost idx': seq<nat>)
      requires i < |backends| && b == backends[i] && Candidates(backends[..i], on, idx, candidates)
      ensures Candidates(backends[..i + 1], on', idx', candidates') && on' == on + [ok]
    {
      ExtendCandidates(backends, i, on, idx, candidates, ok);
      candidates', on', idx' := candidates, on + [ok], idx;
      if ok {
        candidates' := candidates + [b];
        idx' := idx + [i];
      }
    }

    /** What each algorithm promises about its choice w among the marked backends. */
    static ghost predicate Chosen(bs: seq<Backend>, algorithm: Algorithm, on: seq<bool>, counter: nat,
                                  ws: seq<int>, cs: seq<int>, score: Upstream -> real, w: nat)
      reads bs
    {
      match algorithm
      case RoundRobin => Rotates(on, counter, w)
      case WeightedRoundRobin => SW.Leads(ws, cs, on, w)
      case LeastConnections => LeastLoaded(bs, on, w, |bs|)
      case IPHash => Rendezvous(bs, on, score, w, |bs|)
    }

    /** Rebuilds the pool for a list of upstreams; a backend addressing what an old one did
        (the last such, if several) takes over what was learned about it. */
    constructor (hostID: int, algorithm: Algorithm, upstreams: seq<Upstream>, prev: Pool?)
      ensures this.hostID == hostID && this.algorithm == algorithm && counter == 0
      ensures Valid() && |backends| == |upstreams| && fresh(backends)
      ensures forall i :: 0 <= i < |backends| ==>
                backends[i].upstream == upstreams[i] && backends[i].activeConns == 0 && backends[i].currentWeight == 0
      ensures forall i :: 0 <= i < |backends| ==>
                var was := if prev == null then [] else prev.backends;
                && backends[i].State() == Inherited(was, upstreams[i].key)
                && backends[i].totalRequests == InheritedTotal(was, upstreams[i].key)
    {
      var old_ := if prev == null then [] else prev.backends;
      var bs := BuildBackends(upstreams, old_);
      this.hostID, this.algorithm, this.backends := hostID, algorithm, bs;
      counter := 0;
    }

    /** One pick. `on` marks the eligible backends; the choice w is what the algorithm promises
        among them, and only a weighted choice moves the running scores. */
    method Pick(exclude: seq<Backend>, now: int, score: Upstream -> real, ghost ws: seq<int>, ghost cs: seq<int>)
      returns (r: PickResult, ghost on: seq<bool>, ghost w: nat, ghost cs': seq<int>)
      requires Valid() && Weighs(backends, ws) && Scored(backends, cs)
      modifies `counter, backends`currentWeight
      ensures |on| == |backends| && Scored(backends, cs')
      ensures forall i :: 0 <= i < |on| ==> on[i] == old(Eligible(backends[i], exclude, now))
      ensures r.NoBackends? <==> forall i :: 0 <= i < |backends| ==> !backends[i].upstream.enabled
      ensures r.Picked? <==> exists i :: 0 <= i < |on| && on[i]
      ensures r.Picked? ==> w < |on| && on[w] && r.backend == backends[w]
      ensures r.Picked? ==> old(Chosen(backends, algorithm, on, counter, ws, cs, score, w))
      ensures if r.Picked? && algorithm.WeightedRoundRobin? then SW.Selects(ws, cs, on, w, cs') else cs' == cs
      ensures counter == old(counter) + if r.Picked? && algorithm.RoundRobin? then 1 else 0
    {
      cs', w := cs, 0;
      if |backends| == 0 { return NoBackends, [], w, cs'; }
      ghost var idx;
      var candidates, enabled;
      candidates, enabled, on, idx := Filter(exclude, now);
      if enabled == 0 { return NoBackends, on, w, cs'; }
      if |candidates| == 0 { return NoHealthyBackend, on, w, cs'; }
      assert on[idx[0]];
      var b;
      match algorithm {
        case RoundRobin =>
          b, w := SelectRotating(candidates, counter, backends, on, idx);
          counter := counter + 1;
        case WeightedRoundRobin =>
          b, w, cs' := SelectWeighted(candidates, backends, on, idx, ws, cs);
        case LeastConnections =>
          b, w := SelectLeastConnections(candidates, backends, on, idx);
        case IPHash =>
          b, w := SelectByClient(candidates, score, backends, on, idx);
      }
      return Picked(b), on, w, cs';
    }
  }

  /** Index of the last backend with this key, or -1. */
  ghost function LastWith(bs: seq<Backend>, key: string): (k: int)
    ensures -1 <= k < |bs|
    ensures k >= 0 ==> bs[k].upstream.key == key
    ensures forall i :: k < i < |bs| ==> bs[i].upstream.key != key
  {
    if bs == [] then -1
    else if bs[|bs| - 1].upstream.key == key then |bs| - 1
    else LastWith(bs[..|bs| - 1], key)
  }

  ghost function Inherited(bs: seq<Backend>, key: string): Runtime
    reads bs
  {
    var k := LastWith(bs, key);
    if k < 0 then NEW else bs[k].State()
  }

  /** Requests finished by the backend inherited from. */
  ghost function InheritedTotal(bs: seq<Backend>, key: string): nat
    reads bs
  {
    var k := LastWith(bs, key);
    if k < 0 then 0 else bs[k].totalRequests
  }

  /** The last old backend with the key is the one inherited from, and without one nothing is. */
  lemma InheritsFromLast(bs: seq<Backend>, key: string, i: nat)
    requires i < |bs| && (forall j :: i < j < |bs| ==> bs[j].upstream.key != key)
    ensures bs[i].upstream.key == key ==>
              Inherited(bs, key) == bs[i].State() && InheritedTotal(bs, key) == bs[i].totalRequests
    ensures i == 0 && bs[0].upstream.key != key ==> Inherited(bs, key) == NEW && InheritedTotal(bs, key) == 0
  {}

  lemma LastWithStep(bs: seq<Backend>, i: nat, key: string)
    requires i < |bs|
    ensures LastWith(bs[..i + 1], key) == if bs[i].upstream.key == key then i else LastWith(bs[..i], key)
  {
    assert bs[..i + 1][..i] == bs[..i];
  }

  /** m sends each key to the last backend that has it. */
  ghost predicate Keyed(m: map<string, Backend>, bs: seq<Backend>) {
    forall key {:trigger KeyedAt(m, bs, key)} :: KeyedAt(m, bs, key)
  }

  ghost predicate KeyedAt(m: map<string, Backend>, bs: seq<Backend>, key: string) {
    (key in m <==> LastWith(bs, key) >= 0) && (key in m ==> m[key] == bs[LastWith(bs, key)])
  }

  lemma KeyedMore(m: map<string, Backend>, bs: seq<Backend>, i: nat)
    requires i < |bs| && Keyed(m, bs[..i])
    ensures Keyed(m[bs[i].upstream.key := bs[i]], bs[..i + 1])
  {
    var n, now := m[bs[i].upstream.key := bs[i]], bs[..i + 1];
    forall key {:trigger KeyedAt(n, now, key)} ensures KeyedAt(n, now, key) {
      assert KeyedAt(m, bs[..i], key);
      LastWithStep(bs, i, key);
    }
  }

  /** b starts with what the last old backend with its key had learned and finished. */
  ghost predicate Carries(b: Backend, old_: seq<Backend>, key: string)
    reads b, old_
  {
    b.State() == Inherited(old_, key) && b.totalRequests == InheritedTotal(old_, key)
  }

  method IndexByKey(bs: seq<Backend>) returns (m: map<string, Backend>)
    ensures Keyed(m, bs)
  {
    m := map[];
    for i := 0 to |bs|
      invariant Keyed(m, bs[..i])
    {
      KeyedMore(m, bs, i);
      m := m[bs[i].upstream.key := bs[i]];
    }
    assert bs[..|bs|] == bs;
  }

  lemma DistinctMore(bs: seq<Backend>, b: Backend)
    requires Distinct(bs) && b !in bs
    ensures Distinct(bs + [b])
  {
    forall i, j | 0 <= i < j < |bs + [b]| ensures Differ(bs + [b], i, j) {
      if j < |bs| { assert Differ(bs, i, j); }
    }
  }

  method BuildBackends(upstreams: seq<Upstream>, old_: seq<Backend>) returns (bs: seq<Backend>)
    ensures |bs| == |upstreams| && fresh(bs) && Distinct(bs)
    ensures forall i :: 0 <= i < |bs| ==>
              bs[i].upstream == upstreams[i] && bs[i].activeConns == 0 && bs[i].currentWeight == 0
    ensures forall i :: 0 <= i < |bs| ==> Carries(bs[i], old_, upstreams[i].key)
  {
    var inherited := IndexByKey(old_);
    bs := [];
    for i := 0 to |upstreams|
      invariant |bs| == i && fresh(bs) && Distinct(bs)
      invariant forall k :: 0 <= k < i ==>
                  bs[k].upstream == upstreams[k] && bs[k].activeConns == 0 && bs[k].currentWeight == 0
      invariant forall k :: 0 <= k < i ==> Carries(bs[k], old_, upstreams[k].key)
    {
      var b := BuildBackend(upstreams[i], inherited, old_);
      DistinctMore(bs, b);
      bs := bs + [b];
    }
  }

  method BuildBackend(u: Upstream, inherited: map<string, Backend>, ghost old_: seq<Backend>) returns (b: Backend)
    requires Keyed(inherited, old_)
    ensures fresh(b) && b.upstream == u && b.activeConns == 0 && b.currentWeight == 0
    ensures Carries(b, old_, u.key)
  {
    b := new Backend(u);
    assert KeyedAt(inherited, old_, u.key);
    if u.key in inherited {
      b.InheritFrom(inherited[u.key]);
    }
  }

  lemma ListsSkip(on: seq<bool>, idx: seq<nat>)
    requires Lists(on, idx)
    ensures Lists(on + [false], idx)
  {
    var more := on + [false];
    forall i | 0 <= i < |more| && more[i] ensures i in idx { assert more[i] == on[i]; }
  }

  lemma ListsTake(on: seq<bool>, idx: seq<nat>)
    requires Lists(on, idx)
    ensures Lists(on + [true], idx + [|on|])
  {
    var more, ids := on + [true], idx + [|on|];
    forall i | 0 <= i < |more| && more[i] ensures i in ids {
      if i < |on| { assert more[i] == on[i] && i in idx; } else { assert ids[|idx|] == i; }
    }
    forall j | 0 <= j < |ids| ensures ids[j] < |more| && more[ids[j]] {
      if j < |idx| { assert ids[j] == idx[j] && more[idx[j]] == on[idx[j]]; }
    }
    forall j, k | 0 <= j < k < |ids| ensures Below(ids, j, k) {
      if k < |idx| { assert Below(idx, j, k); } else { assert ids[j] == idx[j] < |on|; }
    }
  }

  lemma SkipCandidate(bs: seq<Backend>, i: nat, on: seq<bool>, idx: seq<nat>, candidates: seq<Backend>)
    requires i < |bs| && Candidates(bs[..i], on, idx, candidates)
    ensures Candidates(bs[..i + 1], on + [false], idx, candidates)
  {
    ListsSkip(on, idx);
    forall j | 0 <= j < |idx| ensures candidates[j] == bs[..i + 1][idx[j]] { StillAt(bs, i, idx[j]); }
  }

  lemma TakeCandidate(bs: seq<Backend>, i: nat, on: seq<bool>, idx: seq<nat>, candidates: seq<Backend>)
    requires i < |bs| && Candidates(bs[..i], on, idx, candidates)
    ensures Candidates(bs[..i + 1], on + [true], idx + [i], candidates + [bs[i]])
  {
    ListsTake(on, idx);
    var ids, cs := idx + [i], candidates + [bs[i]];
    forall j | 0 <= j < |ids| ensures cs[j] == bs[..i + 1][ids[j]] {
      if j < |idx| { StillAt(bs, i, idx[j]); }
    }
  }

  lemma StillAt(bs: seq<Backend>, i: nat, k: nat)
    requires k < i < |bs|
    ensures bs[..i][k] == bs[..i + 1][k]
  {}

  lemma ExtendCandidates(bs: seq<Backend>, i: nat, on: seq<bool>, idx: seq<nat>, candidates: seq<Backend>, ok: bool)
    requires i < |bs| && Candidates(bs[..i], on, idx, candidates)
    ensures Candidates(bs[..i + 1], on + [ok], if ok then idx + [i] else idx, if ok then candidates + [bs[i]] else candidates)
  {
    if ok { TakeCandidate(bs, i, on, idx, candidates); } else { SkipCandidate(bs, i, on, idx, candidates); }
  }
}

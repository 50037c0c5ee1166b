/** What the proxy learns about one backend: active probe streaks and passive ejection,
    as transitions on values together with the declarative meaning of whole histories.
 */
module Health {

  /** ejectedUntil is a clock reading, 0 when the backend is not ejected. */
  datatype Runtime = Runtime(healthy: bool, okStreak: nat, failStreak: nat, proxyFails: int, ejectedUntil: int)

  const NEW := Runtime(true, 0, 0, 0, 0)

  datatype PassiveHealth = PassiveHealth(enabled: bool, maxFails: int, ejectFor: int)

  predicate Ejected(r: Runtime, now: int) {
    r.ejectedUntil != 0 && r.ejectedUntil - now > 0
  }

  predicate Available(r: Runtime, now: int) {
    r.healthy && !Ejected(r, now)
  }

  /** One active probe against the healthy threshold H and the unhealthy threshold U. */
  function Probed(r: Runtime, success: bool, H: int, U: int): Runtime {
    if success then
      r.(failStreak := 0, okStreak := r.okStreak + 1, healthy := r.healthy || r.okStreak + 1 >= H)
    else
      r.(okStreak := 0, failStreak := r.failStreak + 1, healthy := r.healthy && r.failStreak + 1 < U)
  }

  /** One proxied request against the passive health setting. */
  function Proxied(r: Runtime, success: bool, cfg: PassiveHealth, now: int): Runtime {
    if !cfg.enabled then r
    else if success then r.(proxyFails := 0, ejectedUntil := 0)
    else if r.proxyFails + 1 < cfg.maxFails then r.(proxyFails := r.proxyFails + 1)
    else r.(proxyFails := 0, ejectedUntil := now + cfg.ejectFor)
  }

  function Cleared(r: Runtime): Runtime {
    r.(proxyFails := 0, ejectedUntil := 0)
  }

  // ----- active probes: the flag means the most recent decisive window -----

  function ProbeRun(r: Runtime, h: seq<bool>, H: int, U: int): Runtime {
    if h == [] then r
    else Probed(ProbeRun(r, h[..|h| - 1], H, U), h[|h| - 1], H, U)
  }

  /** The last `n` (at least one) probes before position k all came out as `v`. */
  ghost predicate Window(h: seq<bool>, k: nat, n: int, v: bool) {
    var len := if n < 1 then 1 else n;
    len <= k <= |h| && forall i :: k - len <= i < k ==> h[i] == v
  }

  /** Some failing window ends at k and no succeeding one ends after it. */
  ghost predicate LastDecisiveFails(h: seq<bool>, H: int, U: int) {
    exists k: nat :: Window(h, k, U, false) && forall j: nat :: k < j ==> !Window(h, j, H, true)
  }

  /** Length of the run of v at the end of h. */
  function Trailing(h: seq<bool>, v: bool): nat {
    if h != [] && h[|h| - 1] == v then 1 + Trailing(h[..|h| - 1], v) else 0
  }

  lemma {:induction false} TrailingMeans(h: seq<bool>, v: bool, n: nat)
    ensures Trailing(h, v) <= |h|
    ensures n <= Trailing(h, v) <==> n <= |h| && forall i :: |h| - n <= i < |h| ==> h[i] == v
  {
    if h != [] && n > 0 {
      var g := h[..|h| - 1];
      TrailingMeans(g, v, n - 1);
      assert forall i :: 0 <= i < |g| ==> g[i] == h[i];
      if n <= |h| && forall i :: |h| - n <= i < |h| ==> h[i] == v {
        assert h[|h| - 1] == v;
        assert forall i :: |g| - (n - 1) <= i < |g| ==> g[i] == v;
      }
    } else if h != [] {
      TrailingMeans(h[..|h| - 1], v, 0);
    }
  }

  lemma {:induction false} StreaksAreTrailing(h: seq<bool>, H: int, U: int)
    ensures ProbeRun(NEW, h, H, U).okStreak == Trailing(h, true)
    ensures ProbeRun(NEW, h, H, U).failStreak == Trailing(h, false)
    ensures ProbeRun(NEW, h, H, U).proxyFails == 0 && ProbeRun(NEW, h, H, U).ejectedUntil == 0
  {
    if h != [] { StreaksAreTrailing(h[..|h| - 1], H, U); }
  }

  lemma WindowAtEnd(h: seq<bool>, n: int, v: bool)
    ensures Window(h, |h|, n, v) <==> Trailing(h, v) >= (if n < 1 then 1 else n)
  {
    TrailingMeans(h, v, if n < 1 then 1 else n);
  }

  lemma WindowOfPrefix(h: seq<bool>, k: nat, n: int, v: bool)
    requires h != [] && k < |h|
    ensures Window(h, k, n, v) <==> Window(h[..|h| - 1], k, n, v)
  {
    var g := h[..|h| - 1];
    assert forall i :: 0 <= i < k ==> g[i] == h[i];
  }

  /** Adding one probe changes the verdict only when that probe completes a window. */
  lemma DecisiveStep(h: seq<bool>, H: int, U: int)
    requires h != []
    ensures LastDecisiveFails(h, H, U) <==>
            Window(h, |h|, U, false) || (LastDecisiveFails(h[..|h| - 1], H, U) && !Window(h, |h|, H, true))
  {
    var g := h[..|h| - 1];
    forall k: nat, n: int, v: bool | k < |h| ensures Window(h, k, n, v) <==> Window(g, k, n, v) {
      WindowOfPrefix(h, k, n, v);
    }
    if Window(h, |h|, U, false) {
      assert forall j: nat :: |h| < j ==> !Window(h, j, H, true);
    } else if LastDecisiveFails(g, H, U) && !Window(h, |h|, H, true) {
      var k: nat :| Window(g, k, U, false) && forall j: nat :: k < j ==> !Window(g, j, H, true);
      assert Window(h, k, U, false);
      forall j: nat | k < j ensures !Window(h, j, H, true) {
        if j < |h| { assert !Window(g, j, H, true); }
      }
    }
  }

  /** Starting healthy, a backend is down exactly when its most recent decisive window of
      probes is a failing one. A threshold below one acts as one. */
  lemma {:induction false} HealthMeansLastDecisiveWindow(h: seq<bool>, H: int, U: int)
    ensures ProbeRun(NEW, h, H, U).healthy <==> !LastDecisiveFails(h, H, U)
  {
    if h != [] {
      var g := h[..|h| - 1];
      HealthMeansLastDecisiveWindow(g, H, U);
      StreaksAreTrailing(g, H, U);
      DecisiveStep(h, H, U);
      WindowAtEnd(h, U, false);
      WindowAtEnd(h, H, true);
    }
  }

  // ----- passive ejection: the counter and deadline mean the failures since the last reset -----

  /** A proxied result, or the health checker clearing the ejection of a recovered backend. */
  datatype Traffic = Result(success: bool, at: int) | Clear

  predicate Fails(a: Traffic) { a.Result? && !a.success }

  function Moved(r: Runtime, a: Traffic, cfg: PassiveHealth): Runtime {
    if a.Clear? then Cleared(r) else Proxied(r, a.success, cfg, a.at)
  }

  function ProxyRun(r: Runtime, h: seq<Traffic>, cfg: PassiveHealth): Runtime {
    if h == [] then r else Moved(ProxyRun(r, h[..|h| - 1], cfg), h[|h| - 1], cfg)
  }

  /** Consecutive failures ending just before position k; a success or a clearing ends them. */
  function FailRun(h: seq<Traffic>, k: nat): nat
    requires k <= |h|
  {
    if k > 0 && Fails(h[k - 1]) then 1 + FailRun(h, k - 1) else 0
  }

  /** Result k is the one that completes a block of m consecutive failures. */
  predicate Ejects(h: seq<Traffic>, k: nat, m: nat)
    requires k < |h| && m > 0
  {
    Fails(h[k]) && FailRun(h, k + 1) % m == 0
  }

  lemma {:induction false} FailRunOfPrefix(h: seq<Traffic>, g: seq<Traffic>, k: nat)
    requires k <= |g| <= |h| && g == h[..|g|]
    ensures FailRun(h, k) == FailRun(g, k)
  {
    if k > 0 { FailRunOfPrefix(h, g, k - 1); }
  }

  lemma NextInBlock(n: nat, m: nat)
    requires m > 0
    ensures (n + 1) % m == if n % m + 1 < m then n % m + 1 else 0
  {
    var q, r := n / m, n % m;
    assert n == q * m + r;
    if r + 1 < m {
      ModOf(n + 1, q, m, r + 1);
    } else {
      assert n + 1 == (q + 1) * m;
      ModOf(n + 1, q + 1, m, 0);
    }
  }

  lemma ModOf(x: nat, q: nat, m: nat, r: nat)
    requires m > 0 && r < m && x == q * m + r
    ensures x % m == r
  {
    var d := x / m - q;
    assert m * d == r - x % m;
    SmallMultiple(m, d);
  }

  lemma SmallMultiple(m: nat, d: int)
    ensures 0 - m < m * d < m ==> d == 0
  {
    if d >= 1 { assert m * d >= m; }
    if d <= -1 { assert m * d <= 0 - m; }
  }

  /** With passive health on, the failure counter is the length of the current failure run
      modulo MaxFails. */
  lemma {:induction false} CounterMeansFailRun(h: seq<Traffic>, cfg: PassiveHealth)
    requires cfg.enabled && cfg.maxFails >= 1
    ensures ProxyRun(NEW, h, cfg).proxyFails == FailRun(h, |h|) % cfg.maxFails
  {
    if h != [] {
      var g := h[..|h| - 1];
      CounterMeansFailRun(g, cfg);
      FailRunOfPrefix(h, g, |g|);
      CounterStep(ProxyRun(NEW, g, cfg), FailRun(h, |g|), h[|g|], cfg);
    }
  }

  lemma CounterStep(r: Runtime, n: nat, a: Traffic, cfg: PassiveHealth)
    requires cfg.enabled && cfg.maxFails >= 1 && r.proxyFails == n % cfg.maxFails
    ensures Moved(r, a, cfg).proxyFails == (if Fails(a) then n + 1 else 0) % cfg.maxFails
    ensures !Fails(a) ==> Moved(r, a, cfg).ejectedUntil == 0
    ensures Fails(a) ==>
              Moved(r, a, cfg).ejectedUntil
              == if (n + 1) % cfg.maxFails == 0 then a.at + cfg.ejectFor else r.ejectedUntil
  {
    NextInBlock(n, cfg.maxFails);
  }

  /** The deadline is EjectFor past the last block of MaxFails straight failures, unless a
      success or a clearing came after it; then, or with no such block, there is none. */
  ghost predicate DeadlineMeaning(h: seq<Traffic>, cfg: PassiveHealth, until: int)
    requires cfg.maxFails >= 1
  {
    if exists k: nat :: LastEjection(h, cfg.maxFails, k)
    then exists k: nat :: LastEjection(h, cfg.maxFails, k) && until == h[k].at + cfg.ejectFor
    else until == 0
  }

  ghost predicate LastEjection(h: seq<Traffic>, m: nat, k: nat)
    requires m > 0
  {
    k < |h| && Ejects(h, k, m) && forall j :: k < j < |h| ==> Fails(h[j]) && !Ejects(h, j, m)
  }

  lemma LastEjectionUnique(h: seq<Traffic>, m: nat, k: nat, l: nat)
    requires m > 0 && LastEjection(h, m, k) && LastEjection(h, m, l)
    ensures k == l
  {}

  lemma LastEjectionOfPrefix(h: seq<Traffic>, m: nat, k: nat)
    requires m > 0 && h != [] && k < |h| - 1 && Fails(h[|h| - 1]) && !Ejects(h, |h| - 1, m)
    ensures LastEjection(h, m, k) <==> LastEjection(h[..|h| - 1], m, k)
  {
    var g := h[..|h| - 1];
    forall j | 0 <= j < |g| ensures g[j] == h[j] && Ejects(h, j, m) == Ejects(g, j, m) {
      FailRunOfPrefix(h, g, j + 1);
    }
  }

  lemma {:induction false} DeadlineMeansLastEjection(h: seq<Traffic>, cfg: PassiveHealth)
    requires cfg.enabled && cfg.maxFails >= 1
    ensures DeadlineMeaning(h, cfg, ProxyRun(NEW, h, cfg).ejectedUntil)
  {
    if h != [] {
      var g, m := h[..|h| - 1], cfg.maxFails as nat;
      var last := |h| - 1;
      DeadlineMeansLastEjection(g, cfg);
      CounterMeansFailRun(g, cfg);
      FailRunOfPrefix(h, g, |g|);
      CounterStep(ProxyRun(NEW, g, cfg), FailRun(h, |g|), h[last], cfg);
      if Fails(h[last]) {
        if Ejects(h, last, m) {
          assert LastEjection(h, m, last);
        } else {
          forall k: nat | k < last ensures LastEjection(h, m, k) <==> LastEjection(g, m, k) {
            LastEjectionOfPrefix(h, m, k);
          }
          assert forall k: nat :: LastEjection(h, m, k) ==> k < last;
          if k: nat :| LastEjection(h, m, k) { assert LastEjection(g, m, k); }
        }
      }
    }
  }

  /** A backend is out of rotation for traffic exactly while the window of its last ejection,
      not followed by a success or a clearing, is still open. */
  lemma EjectedExactly(h: seq<Traffic>, cfg: PassiveHealth, now: int)
    requires cfg.enabled && cfg.maxFails >= 1
    ensures Ejected(ProxyRun(NEW, h, cfg), now) <==>
            exists k: nat :: LastEjection(h, cfg.maxFails, k) && h[k].at + cfg.ejectFor != 0 && now < h[k].at + cfg.ejectFor
  {
    DeadlineMeansLastEjection(h, cfg);
    forall k: nat, l: nat | LastEjection(h, cfg.maxFails, k) && LastEjection(h, cfg.maxFails, l) ensures k == l {
      LastEjectionUnique(h, cfg.maxFails, k, l);
    }
  }

  /** With passive health off, traffic teaches nothing; a clearing still clears. */
  lemma {:induction false} OffLearnsNothing(r: Runtime, h: seq<Traffic>, cfg: PassiveHealth)
    requires !cfg.enabled
    ensures ProxyRun(r, h, cfg) == if Clear in h then Cleared(r) else r
  {
    if h != [] {
      OffLearnsNothing(r, h[..|h| - 1], cfg);
      assert h == h[..|h| - 1] + [h[|h| - 1]];
    }
  }

  // ----- both at once -----

  datatype Event = Probe(ok: bool) | Seen(t: Traffic)

  function Probes(h: seq<Event>): seq<bool> {
    if h == [] then []
    else Probes(h[..|h| - 1]) + if h[|h| - 1].Probe? then [h[|h| - 1].ok] else []
  }

  function TrafficOf(h: seq<Event>): seq<Traffic> {
    if h == [] then []
    else TrafficOf(h[..|h| - 1]) + if h[|h| - 1].Seen? then [h[|h| - 1].t] else []
  }

  function History(r: Runtime, h: seq<Event>, H: int, U: int, cfg: PassiveHealth): Runtime {
    if h == [] then r
    else
      var before := History(r, h[..|h| - 1], H, U, cfg);
      match h[|h| - 1]
      case Probe(ok) => Probed(before, ok, H, U)
      case Seen(t) => Moved(before, t, cfg)
  }

  /** The probe state of p with the ejection state of t. */
  function Joined(p: Runtime, t: Runtime): Runtime {
    Runtime(p.healthy, p.okStreak, p.failStreak, t.proxyFails, t.ejectedUntil)
  }

  lemma JoinedStep(p: Runtime, t: Runtime, e: Event, H: int, U: int, cfg: PassiveHealth)
    ensures e.Probe? ==> Probed(Joined(p, t), e.ok, H, U) == Joined(Probed(p, e.ok, H, U), t)
    ensures e.Seen? ==> Moved(Joined(p, t), e.t, cfg) == Joined(p, Moved(t, e.t, cfg))
  {}

  lemma ProbeMore(ps: seq<bool>, ok: bool, H: int, U: int)
    ensures ProbeRun(NEW, ps + [ok], H, U) == Probed(ProbeRun(NEW, ps, H, U), ok, H, U)
  {
    assert (ps + [ok])[..|ps|] == ps;
  }

  lemma TrafficMore(ts: seq<Traffic>, t: Traffic, cfg: PassiveHealth)
    ensures ProxyRun(NEW, ts + [t], cfg) == Moved(ProxyRun(NEW, ts, cfg), t, cfg)
  {
    assert (ts + [t])[..|ts|] == ts;
  }

  /** However probes, results and clearings interleave, the probe state is that of the probes alone
      and the ejection state that of the traffic alone. */
  lemma {:induction false} ChecksAreIndependent(h: seq<Event>, H: int, U: int, cfg: PassiveHealth)
    ensures History(NEW, h, H, U, cfg) == Joined(ProbeRun(NEW, Probes(h), H, U), ProxyRun(NEW, TrafficOf(h), cfg))
  {
    if h != [] {
      var g, e := h[..|h| - 1], h[|h| - 1];
      ChecksAreIndependent(g, H, U, cfg);
      var ps, ts := Probes(g), TrafficOf(g);
      JoinedStep(ProbeRun(NEW, ps, H, U), ProxyRun(NEW, ts, cfg), e, H, U, cfg);
      match e
      case Probe(ok) =>
        ProbeMore(ps, ok, H, U);
        assert Probes(h) == ps + [ok] && TrafficOf(h) == ts;
      case Seen(t) =>
        TrafficMore(ts, t, cfg);
        assert Probes(h) == ps && TrafficOf(h) == ts + [t];
    }
  }

  /** So a backend takes traffic exactly when its most recent decisive probe window is not a failing
      one and the window of its last ejection, not followed by a success or a clearing, is over. */
  lemma AvailableExactly(h: seq<Event>, H: int, U: int, cfg: PassiveHealth, now: int)
    requires cfg.enabled && cfg.maxFails >= 1
    ensures Available(History(NEW, h, H, U, cfg), now) <==>
            && !LastDecisiveFails(Probes(h), H, U)
            && !exists k: nat :: LastEjection(TrafficOf(h), cfg.maxFails, k) &&
                 TrafficOf(h)[k].at + cfg.ejectFor != 0 && now < TrafficOf(h)[k].at + cfg.ejectFor
  {
    ChecksAreIndependent(h, H, U, cfg);
    HealthMeansLastDecisiveWindow(Probes(h), H, U);
    EjectedExactly(TrafficOf(h), cfg, now);
  }
}

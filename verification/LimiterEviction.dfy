/** Sweeping a shard that also evicts: with every bucket refilling within the idle period, a record
    the swept and the unswept table do not share is one that has refilled, and so is whatever a
    full table then evicts.
 */
module LimiterEviction {
  import opened Basics
  import opened LimiterRecord
  import L = Limiter
  import Sw = LimiterSweep

  type Key = L.Key
  type Table = L.Table
  type RulesOf = int -> Rules

  // ----- one record with and without -----

  /** The two records answer alike from t on: the same, or one of them gone and full again. */
  ghost predicate Twin(s: Rec, u: Rec, rules: Rules, t: real) {
    Sw.Near(s, u, rules, t, 0.0) || Sw.Near(u, s, rules, t, 0.0)
  }

  predicate Stale(c: Client, t: real) { c.active == 0 && c.seen < t - IDLE_AFTER }

  function Gone(r: Rec): Rec { r.(client := None) }

  lemma TwinLater(s: Rec, u: Rec, rules: Rules, t: real, now: real)
    requires Twin(s, u, rules, t) && t <= now
    ensures Twin(s, u, rules, now)
  {}

  lemma TwinStep(s: Rec, u: Rec, rules: Rules, t: real, e: Event)
    requires Twin(s, u, rules, t) && Sw.Refills(rules, 0.0) && !e.Evict? && !e.Sweep?
    requires e.Acquire? ==> e.rules == rules && t <= e.now
    ensures Twin(Step(s, e), Step(u, e), rules, if e.Acquire? then e.now else t)
    ensures e.Acquire? ==> Answer(s, rules, e.now) == Answer(u, rules, e.now)
  {
    if Sw.Near(s, u, rules, t, 0.0) {
      Sw.StepNear(s, u, rules, t, 0.0, e);
    } else {
      Sw.StepNear(u, s, rules, t, 0.0, e);
    }
  }

  lemma TwinSwept(s: Rec, u: Rec, rules: Rules, t: real, now: real)
    requires Twin(s, u, rules, t) && t <= now
    ensures Twin(Step(s, Sweep(now)), u, rules, now)
  {}

  lemma TwinEvicted(s: Rec, u: Rec, rules: Rules, t: real)
    requires Twin(s, u, rules, t)
    ensures s.client.Some? && Stale(s.client.value, t) ==> Twin(Gone(s), u, rules, t)
    ensures u.client.Some? && Stale(u.client.value, t) ==> Twin(s, Gone(u), rules, t)
    ensures Twin(Gone(s), Gone(u), rules, t)
  {}

  // ----- the two tables -----

  ghost predicate Twins(s: L.State, u: L.State, rulesOf: RulesOf, t: real) {
    forall k :: Twin(L.At(s, k), L.At(u, k), rulesOf(k.host), t)
  }

  ghost predicate Sane(s: L.State) {
    forall k :: k in s.table ==> s.table[k].active >= 0
  }

  ghost predicate AnyIdle(t: Table) { exists k :: k in t && L.Idle(t[k]) }

  /** Among some idle records one was seen longest ago. */
  lemma {:induction false} LeastSeen(t: Table, ks: set<Key>) returns (k: Key)
    requires ks <= t.Keys && ks != {}
    ensures k in ks && forall j :: j in ks ==> t[k].seen <= t[j].seen
  {
    var x :| x in ks;
    k := x;
    if ks != {x} {
      var y := LeastSeen(t, ks - {x});
      if t[y].seen < t[x].seen { k := y; }
    }
  }

  lemma SomeOldest(t: Table) returns (k: Key)
    requires AnyIdle(t)
    ensures L.OldestIdle(t, k)
  {
    var idle := set k | k in t && L.Idle(t[k]);
    var some :| some in t && L.Idle(t[some]);
    assert some in idle;
    k := LeastSeen(t, idle);
  }

  ghost predicate Evicts(t: Table, k: Key) {
    k !in t && |t| >= L.MAX_PER_SHARD && AnyIdle(t)
  }

  lemma RoomIs(t: Table, k: Key, v: Key)
    requires L.Choosable(t, k, v)
    ensures Evicts(t, k) ==> L.OldestIdle(t, v) && L.Roomier(t, k, v) == t - {v}
    ensures !Evicts(t, k) ==> L.Roomier(t, k, v) == t
  {}

  /** A record only one table has is stale there. */
  lemma ExtraIsStale(s: L.State, u: L.State, rulesOf: RulesOf, t: real, x: Key)
    requires Twins(s, u, rulesOf, t)
    ensures x in s.table && x !in u.table ==> Stale(s.table[x], t)
    ensures x in u.table && x !in s.table ==> Stale(u.table[x], t)
    ensures x in s.table && x in u.table ==> s.table[x].active == u.table[x].active && s.table[x].seen == u.table[x].seen
  {
    assert Twin(L.At(s, x), L.At(u, x), rulesOf(x.host), t);
  }

  /** With a stale record in the table, the oldest idle one is stale. */
  lemma OldestIsStale(s: L.State, t: real, x: Key, v: Key)
    requires Sane(s) && x in s.table && Stale(s.table[x], t) && L.OldestIdle(s.table, v)
    ensures Stale(s.table[v], t)
  {}

  lemma SameKeysSameOldest(s: L.State, u: L.State, rulesOf: RulesOf, t: real, v: Key)
    requires Twins(s, u, rulesOf, t) && s.table.Keys == u.table.Keys
    ensures L.OldestIdle(s.table, v) ==> L.OldestIdle(u.table, v)
    ensures AnyIdle(s.table) <==> AnyIdle(u.table)
  {
    forall x | x in s.table ensures s.table[x].active == u.table[x].active && s.table[x].seen == u.table[x].seen {
      ExtraIsStale(s, u, rulesOf, t, x);
    }
    SameIdle(s.table, u.table);
    SameIdle(u.table, s.table);
  }

  lemma SameIdle(s: Table, u: Table)
    requires s.Keys == u.Keys && forall x :: x in s ==> s[x].active == u[x].active
    ensures AnyIdle(s) ==> AnyIdle(u)
  {
    if AnyIdle(s) {
      var k :| k in s && L.Idle(s[k]);
      assert k in u && L.Idle(u[k]);
    }
  }

  lemma {:induction false} SubsetSize(a: set<Key>, b: set<Key>)
    requires a <= b && |a| >= |b|
    ensures a == b
  {
    if a != {} {
      var x :| x in a;
      SubsetSize(a - {x}, b - {x});
    }
  }

  /** A full table either has the same keys as the other or holds a stale record. */
  lemma SameOrStale(s: L.State, u: L.State, rulesOf: RulesOf, t: real) returns (x: Key)
    requires Twins(s, u, rulesOf, t) && |s.table| >= |u.table| && s.table.Keys != u.table.Keys
    ensures x in s.table && Stale(s.table[x], t)
  {
    if s.table.Keys <= u.table.Keys { SubsetSize(s.table.Keys, u.table.Keys); }
    x :| x in s.table && x !in u.table;
    ExtraIsStale(s, u, rulesOf, t, x);
  }

  // ----- making room -----

  ghost function Roomed(s: L.State, k: Key, v: Key): L.State { s.(table := L.Roomier(s.table, k, v)) }

  lemma RoomedAt(s: L.State, k: Key, v: Key, j: Key)
    requires L.Choosable(s.table, k, v)
    ensures L.At(Roomed(s, k, v), j) == if Evicts(s.table, k) && j == v then Gone(L.At(s, j)) else L.At(s, j)
  {
    RoomIs(s.table, k, v);
  }

  /** When one of two differing tables evicts, it evicts a stale record. */
  lemma VictimIsStale(s: L.State, u: L.State, rulesOf: RulesOf, t: real, k: Key, v: Key)
    requires Twins(s, u, rulesOf, t) && Sane(s) && L.Choosable(s.table, k, v)
    requires |u.table| <= L.MAX_PER_SHARD && s.table.Keys != u.table.Keys && Evicts(s.table, k)
    ensures v in s.table && Stale(s.table[v], t)
  {
    var x := SameOrStale(s, u, rulesOf, t);
    RoomIs(s.table, k, v);
    OldestIsStale(s, t, x, v);
  }

  lemma TwinsSwap(s: L.State, u: L.State, rulesOf: RulesOf, t: real)
    requires Twins(s, u, rulesOf, t)
    ensures Twins(u, s, rulesOf, t)
  {
    forall k ensures Twin(L.At(u, k), L.At(s, k), rulesOf(k.host), t) {
      assert Twin(L.At(s, k), L.At(u, k), rulesOf(k.host), t);
    }
  }

  lemma RoomSame(s: L.State, u: L.State, rulesOf: RulesOf, t: real, k: Key, v: Key)
    requires Twins(s, u, rulesOf, t) && L.Choosable(s.table, k, v) && s.table.Keys == u.table.Keys
    ensures L.Choosable(u.table, k, v) && Twins(Roomed(s, k, v), Roomed(u, k, v), rulesOf, t)
  {
    SameKeysSameOldest(s, u, rulesOf, t, v);
    assert |s.table| == |s.table.Keys| == |u.table.Keys| == |u.table|;
    assert Evicts(s.table, k) <==> Evicts(u.table, k);
    var a, b := Roomed(s, k, v), Roomed(u, k, v);
    forall j ensures Twin(L.At(a, j), L.At(b, j), rulesOf(j.host), t) {
      RoomedAt(s, k, v, j);
      RoomedAt(u, k, v, j);
      assert Twin(L.At(s, j), L.At(u, j), rulesOf(j.host), t);
      TwinEvicted(L.At(s, j), L.At(u, j), rulesOf(j.host), t);
    }
  }

  /** Both records of j, when each side may have evicted a stale one. */
  lemma RoomDiffersAt(s: L.State, u: L.State, rulesOf: RulesOf, t: real, k: Key, v: Key, w: Key, j: Key)
    requires Twins(s, u, rulesOf, t) && L.Choosable(s.table, k, v) && L.Choosable(u.table, k, w)
    requires Evicts(s.table, k) ==> v in s.table && Stale(s.table[v], t)
    requires Evicts(u.table, k) ==> w in u.table && Stale(u.table[w], t)
    ensures Twin(L.At(Roomed(s, k, v), j), L.At(Roomed(u, k, w), j), rulesOf(j.host), t)
  {
    RoomedAt(s, k, v, j);
    RoomedAt(u, k, w, j);
    assert Twin(L.At(s, j), L.At(u, j), rulesOf(j.host), t);
    TwinEvicted(L.At(s, j), L.At(u, j), rulesOf(j.host), t);
  }

  /** Some choice the scan could make. */
  lemma SomeChoice(t: Table, k: Key) returns (w: Key)
    ensures L.Choosable(t, k, w)
  {
    w := k;
    if AnyIdle(t) { w := SomeOldest(t); }
  }

  /** Whatever the swept table evicts, the other has a choice that keeps the two alike. */
  lemma RoomTwins(s: L.State, u: L.State, rulesOf: RulesOf, t: real, k: Key, v: Key) returns (w: Key)
    requires Twins(s, u, rulesOf, t) && Sane(s) && Sane(u) && L.Choosable(s.table, k, v)
    requires |s.table| <= L.MAX_PER_SHARD && |u.table| <= L.MAX_PER_SHARD
    ensures L.Choosable(u.table, k, w) && Twins(Roomed(s, k, v), Roomed(u, k, w), rulesOf, t)
  {
    if s.table.Keys == u.table.Keys {
      RoomSame(s, u, rulesOf, t, k, v);
      w := v;
    } else {
      w := SomeChoice(u.table, k);
      RoomDiffer(s, u, rulesOf, t, k, v, w);
    }
  }

  lemma RoomDiffer(s: L.State, u: L.State, rulesOf: RulesOf, t: real, k: Key, v: Key, w: Key)
    requires Twins(s, u, rulesOf, t) && Sane(s) && Sane(u) && s.table.Keys != u.table.Keys
    requires L.Choosable(s.table, k, v) && L.Choosable(u.table, k, w)
    requires |s.table| <= L.MAX_PER_SHARD && |u.table| <= L.MAX_PER_SHARD
    ensures Twins(Roomed(s, k, v), Roomed(u, k, w), rulesOf, t)
  {
    if Evicts(s.table, k) { VictimIsStale(s, u, rulesOf, t, k, v); }
    TwinsSwap(s, u, rulesOf, t);
    if Evicts(u.table, k) { VictimIsStale(u, s, rulesOf, t, k, w); }
    forall j ensures Twin(L.At(Roomed(s, k, v), j), L.At(Roomed(u, k, w), j), rulesOf(j.host), t) {
      RoomDiffersAt(s, u, rulesOf, t, k, v, w, j);
    }
  }

  // ----- one event of the shard -----

  /** What the event does to the table after room is made. */
  ghost function Judge(s: L.State, e: L.Event): L.State
    requires e.Acquire?
  {
    L.Put(s, e.k, Step(L.At(s, e.k), Acquire(e.id, e.rules, e.now)))
  }

  lemma AcquireTwins(s: L.State, u: L.State, rulesOf: RulesOf, t: real, e: L.Event)
    requires Twins(s, u, rulesOf, t) && e.Acquire? && e.rules == rulesOf(e.k.host) && t <= e.now
    requires Sw.Refills(e.rules, 0.0)
    ensures Twins(Judge(s, e), Judge(u, e), rulesOf, e.now)
    ensures Answer(L.At(s, e.k), e.rules, e.now) == Answer(L.At(u, e.k), e.rules, e.now)
  {
    var x := Acquire(e.id, e.rules, e.now);
    assert Twin(L.At(s, e.k), L.At(u, e.k), rulesOf(e.k.host), t);
    TwinStep(L.At(s, e.k), L.At(u, e.k), e.rules, t, x);
    forall j ensures Twin(L.At(Judge(s, e), j), L.At(Judge(u, e), j), rulesOf(j.host), e.now) {
      L.PutAt(s, e.k, Step(L.At(s, e.k), x), j);
      L.PutAt(u, e.k, Step(L.At(u, e.k), x), j);
      assert Twin(L.At(s, j), L.At(u, j), rulesOf(j.host), t);
      TwinLater(L.At(s, j), L.At(u, j), rulesOf(j.host), t, e.now);
    }
  }

  lemma ReleaseTwins(s: L.State, u: L.State, rulesOf: RulesOf, t: real, e: L.Event)
    requires Twins(s, u, rulesOf, t) && e.Release? && Sw.Refills(rulesOf(e.k.host), 0.0)
    ensures Twins(L.Step(s, e), L.Step(u, e), rulesOf, t)
  {
    var x := Release(e.id);
    forall j ensures Twin(L.At(L.Step(s, e), j), L.At(L.Step(u, e), j), rulesOf(j.host), t) {
      L.PutAt(s, e.k, Step(L.At(s, e.k), x), j);
      L.PutAt(u, e.k, Step(L.At(u, e.k), x), j);
      assert Twin(L.At(s, j), L.At(u, j), rulesOf(j.host), t);
      if j == e.k { TwinStep(L.At(s, j), L.At(u, j), rulesOf(j.host), t, x); }
    }
  }

  lemma ForgetTwins(s: L.State, u: L.State, rulesOf: RulesOf, t: real, e: L.Event)
    requires Twins(s, u, rulesOf, t) && e.Forget?
    ensures Twins(L.Step(s, e), L.Step(u, e), rulesOf, t)
  {
    forall j ensures Twin(L.At(L.Step(s, e), j), L.At(L.Step(u, e), j), rulesOf(j.host), t) {
      assert Twin(L.At(s, j), L.At(u, j), rulesOf(j.host), t);
      TwinEvicted(L.At(s, j), L.At(u, j), rulesOf(j.host), t);
    }
  }

  lemma SweptAt(s: L.State, now: real, j: Key)
    ensures L.At(L.Step(s, L.Sweep(now)), j) == Step(L.At(s, j), Sweep(now))
  {}

  lemma SweepTwins(s: L.State, u: L.State, rulesOf: RulesOf, t: real, e: L.Event)
    requires Twins(s, u, rulesOf, t) && e.Sweep? && t <= e.now
    ensures Twins(L.Step(s, e), u, rulesOf, e.now)
  {
    forall j ensures Twin(L.At(L.Step(s, e), j), L.At(u, j), rulesOf(j.host), e.now) {
      assert Twin(L.At(s, j), L.At(u, j), rulesOf(j.host), t);
      TwinSwept(L.At(s, j), L.At(u, j), rulesOf(j.host), t, e.now);
      SweptAt(s, e.now, j);
    }
  }

  /** An unswept table outgrows its cap only if the swept one does. */
  lemma FitsToo(s: L.State, u: L.State, rulesOf: RulesOf, t: real, e: L.Event, v: Key, w: Key)
    requires Twins(s, u, rulesOf, t) && Sane(u) && e.Acquire?
    requires L.Choosable(s.table, e.k, v) && L.Choosable(u.table, e.k, w)
    requires |s.table| <= L.MAX_PER_SHARD && |u.table| <= L.MAX_PER_SHARD
    requires |Judge(Roomed(s, e.k, v), e).table| <= L.MAX_PER_SHARD
    ensures |Judge(Roomed(u, e.k, w), e).table| <= L.MAX_PER_SHARD
  {
    RoomIs(u.table, e.k, w);
    RoomIs(s.table, e.k, v);
    GrowsByOne(Roomed(u, e.k, w), e);
    GrowsByOne(Roomed(s, e.k, v), e);
    if Evicts(u.table, e.k) {
      assert |u.table - {w}| == |u.table| - 1;
    } else if e.k !in u.table && |u.table| >= L.MAX_PER_SHARD {
      FullAlike(s, u, rulesOf, t);
      SameKeysSameOldest(s, u, rulesOf, t, v);
    }
  }

  lemma FullAlike(s: L.State, u: L.State, rulesOf: RulesOf, t: real)
    requires Twins(s, u, rulesOf, t) && |s.table| <= |u.table| && !AnyIdle(u.table)
    ensures s.table.Keys == u.table.Keys
  {
    if s.table.Keys != u.table.Keys {
      TwinsSwap(s, u, rulesOf, t);
      var x := SameOrStale(u, s, rulesOf, t);
      assert L.Idle(u.table[x]);
    }
  }

  lemma AcquireLeavesRecord(r: Rec, e: L.Event)
    requires e.Acquire?
    ensures Step(r, Acquire(e.id, e.rules, e.now)).client.Some?
  {}

  lemma PutSize(t: Table, k: Key, c: Client)
    ensures |t[k := c]| == |t| + if k in t then 0 else 1
  {
    assert t[k := c].Keys == t.Keys + {k};
  }

  lemma GrowsByOne(s: L.State, e: L.Event)
    requires e.Acquire?
    ensures |Judge(s, e).table| == |s.table| + if e.k in s.table then 0 else 1
  {
    var r := Step(L.At(s, e.k), Acquire(e.id, e.rules, e.now));
    AcquireLeavesRecord(L.At(s, e.k), e);
    PutSize(s.table, e.k, r.client.value);
  }

  // ----- runs -----

  /** Every eviction of the run is one the scan could have made, in whatever order it went. */
  ghost predicate Chosen(es: seq<L.Event>) {
    forall n :: 0 <= n < |es| ==> ChosenAt(es, n)
  }

  ghost predicate ChosenAt(es: seq<L.Event>, n: nat)
    requires n < |es|
  {
    es[n].Acquire? ==> L.Choosable(L.Run(es[..n]).table, es[n].k, es[n].victim)
  }

  /** The table never outgrew its cap. */
  ghost predicate Fits(es: seq<L.Event>) {
    forall n :: 0 <= n <= |es| ==> FitsAt(es, n)
  }

  ghost predicate FitsAt(es: seq<L.Event>, n: nat)
    requires n <= |es|
  {
    |L.Run(es[..n]).table| <= L.MAX_PER_SHARD
  }

  /** The same request, release or forget, whatever it evicts. */
  predicate SameRequest(e: L.Event, f: L.Event) {
    if e.Acquire? && f.Acquire? then e == f.(victim := e.victim) else e == f
  }

  /** us is a run the shard could have had with the same requests and no sweeps. */
  ghost predicate Rerun(es: seq<L.Event>, us: seq<L.Event>) {
    var w := L.WithoutSweeps(es);
    Chosen(us) && |us| == |w| && forall i :: 0 <= i < |us| ==> SameRequest(us[i], w[i])
  }

  lemma ChosenPrefix(es: seq<L.Event>)
    requires es != [] && Chosen(es)
    ensures Chosen(es[..|es| - 1])
  {
    var init := es[..|es| - 1];
    forall n | 0 <= n < |init| ensures ChosenAt(init, n) {
      assert init[..n] == es[..n] && ChosenAt(es, n);
    }
  }

  lemma ChosenMore(es: seq<L.Event>, e: L.Event)
    requires Chosen(es) && (e.Acquire? ==> L.Choosable(L.Run(es).table, e.k, e.victim))
    ensures Chosen(es + [e])
  {
    var all := es + [e];
    forall n | 0 <= n < |all| ensures ChosenAt(all, n) {
      assert all[..n] == es[..n];
      if n < |es| { assert ChosenAt(es, n); } else { assert es[..n] == es; }
    }
  }

  lemma RerunMore(es: seq<L.Event>, us: seq<L.Event>, e: L.Event, f: L.Event)
    requires Rerun(es, us) && !e.Sweep? && SameRequest(f, e)
    requires f.Acquire? ==> L.Choosable(L.Run(us).table, f.k, f.victim)
    ensures Rerun(es + [e], us + [f])
  {
    ChosenMore(us, f);
    assert (es + [e])[..|es|] == es;
    assert L.WithoutSweeps(es + [e]) == L.WithoutSweeps(es) + [e];
  }

  lemma RerunSweep(es: seq<L.Event>, us: seq<L.Event>, e: L.Event)
    requires Rerun(es, us) && e.Sweep?
    ensures Rerun(es + [e], us)
  {
    assert (es + [e])[..|es|] == es;
    assert L.WithoutSweeps(es + [e]) == L.WithoutSweeps(es);
  }

  lemma RunIsSane(es: seq<L.Event>)
    ensures Sane(L.Run(es))
  {
    forall k | k in L.Run(es).table ensures L.Run(es).table[k].active >= 0 {
      L.ClientsAreIndependent(es, k);
      L.ActiveNeverNegative(NONE, L.Trace(es, k));
      assert Active(L.At(L.Run(es), k)) >= 0;
    }
  }

  lemma StepIsJudge(s: L.State, e: L.Event)
    requires e.Acquire?
    ensures L.Step(s, e) == Judge(Roomed(s, e.k, e.victim), e)
  {}

  lemma RunMore(es: seq<L.Event>, e: L.Event)
    ensures L.Run(es + [e]) == L.Step(L.Run(es), e)
  {
    assert (es + [e])[..|es|] == es;
  }

  lemma AnswersMore(es: seq<L.Event>, e: L.Event, k: Key)
    ensures L.AnswersTo(es + [e], k) == L.AnswersTo(es, k)
              + if e.Acquire? && e.k == k then [Answer(L.At(L.Run(es), k), e.rules, e.now)] else []
  {
    assert (es + [e])[..|es|] == es;
    if e.Acquire? { L.VerdictIsOwn(L.Run(es), e); }
  }

  lemma RoomKeepsOwn(s: L.State, k: Key, v: Key)
    requires L.Choosable(s.table, k, v)
    ensures L.At(Roomed(s, k, v), k) == L.At(s, k)
  {
    RoomIs(s.table, k, v);
  }

  /** The swept run at s and the unswept at u, side by side through one request. */
  lemma RequestTwins(s: L.State, u: L.State, rulesOf: RulesOf, t: real, e: L.Event) returns (f: L.Event)
    requires Twins(s, u, rulesOf, t) && Sane(s) && Sane(u)
    requires |s.table| <= L.MAX_PER_SHARD && |u.table| <= L.MAX_PER_SHARD
    requires e.Acquire? && e.rules == rulesOf(e.k.host) && t <= e.now && Sw.Refills(e.rules, 0.0)
    requires L.Choosable(s.table, e.k, e.victim) && |L.Step(s, e).table| <= L.MAX_PER_SHARD
    ensures SameRequest(f, e) && f.Acquire? && L.Choosable(u.table, f.k, f.victim)
    ensures Twins(L.Step(s, e), L.Step(u, f), rulesOf, e.now) && |L.Step(u, f).table| <= L.MAX_PER_SHARD
    ensures Answer(L.At(s, e.k), e.rules, e.now) == Answer(L.At(u, e.k), e.rules, e.now)
  {
    var w := RoomTwins(s, u, rulesOf, t, e.k, e.victim);
    f := e.(victim := w);
    StepIsJudge(s, e);
    StepIsJudge(u, f);
    assert Judge(Roomed(u, e.k, w), f) == Judge(Roomed(u, e.k, w), e);
    FitsToo(s, u, rulesOf, t, e, e.victim, w);
    AcquireTwins(Roomed(s, e.k, e.victim), Roomed(u, e.k, w), rulesOf, t, e);
    RoomKeepsOwn(s, e.k, e.victim);
    RoomKeepsOwn(u, e.k, w);
  }

  /** Rules fixed per host and refilling in time, one clock, one release per request, every eviction
      one the scan could make. */
  ghost predicate Orderly(es: seq<L.Event>, rulesOf: RulesOf) {
    L.Steady(es, rulesOf) && Chosen(es) && forall host :: Sw.Refills(rulesOf(host), 0.0)
  }

  lemma FitsPrefix(es: seq<L.Event>)
    requires es != [] && Fits(es)
    ensures Fits(es[..|es| - 1])
    ensures |L.Run(es).table| <= L.MAX_PER_SHARD && |L.Run(es[..|es| - 1]).table| <= L.MAX_PER_SHARD
  {
    var init := es[..|es| - 1];
    forall n | 0 <= n <= |init| ensures FitsAt(init, n) {
      assert FitsAt(es, n) && init[..n] == es[..n];
    }
    assert FitsAt(es, |es|) && es[..|es|] == es;
    assert FitsAt(es, |es| - 1);
  }

  lemma SteadyPrefix(es: seq<L.Event>, rulesOf: RulesOf)
    requires es != [] && L.Steady(es, rulesOf)
    ensures L.Steady(es[..|es| - 1], rulesOf)
  {}

  lemma OrderlyPrefix(es: seq<L.Event>, rulesOf: RulesOf)
    requires es != [] && Orderly(es, rulesOf)
    ensures Orderly(es[..|es| - 1], rulesOf)
  {
    ChosenPrefix(es);
    SteadyPrefix(es, rulesOf);
  }

  ghost predicate SameAnswers(es: seq<L.Event>, us: seq<L.Event>) {
    forall k :: L.AnswersTo(es, k) == L.AnswersTo(us, k)
  }

  lemma SameMore(es: seq<L.Event>, us: seq<L.Event>, e: L.Event, f: L.Event)
    requires SameAnswers(es, us) && SameRequest(f, e)
    requires e.Acquire? ==> Answer(L.At(L.Run(es), e.k), e.rules, e.now) == Answer(L.At(L.Run(us), e.k), e.rules, e.now)
    ensures SameAnswers(es + [e], us + [f])
  {
    forall k ensures L.AnswersTo(es + [e], k) == L.AnswersTo(us + [f], k) {
      AnswersMore(es, e, k);
      AnswersMore(us, f, k);
    }
  }

  lemma SameWithSweep(es: seq<L.Event>, us: seq<L.Event>, e: L.Event)
    requires SameAnswers(es, us) && e.Sweep?
    ensures SameAnswers(es + [e], us)
  {
    forall k ensures L.AnswersTo(es + [e], k) == L.AnswersTo(us, k) {
      AnswersMore(es, e, k);
    }
  }

  /** The swept run and one without sweeps, after the same requests. */
  ghost predicate Paired(es: seq<L.Event>, us: seq<L.Event>, rulesOf: RulesOf, t: real) {
    && Rerun(es, us) && SameAnswers(es, us)
    && Twins(L.Run(es), L.Run(us), rulesOf, t) && |L.Run(us).table| <= L.MAX_PER_SHARD
  }

  ghost predicate CanPair(es: seq<L.Event>, rulesOf: RulesOf, t: real) {
    exists us :: Paired(es, us, rulesOf, t)
  }

  lemma TwinsLater(s: L.State, u: L.State, rulesOf: RulesOf, t: real, now: real)
    requires Twins(s, u, rulesOf, t) && t <= now
    ensures Twins(s, u, rulesOf, now)
  {
    forall j ensures Twin(L.At(s, j), L.At(u, j), rulesOf(j.host), now) {
      assert Twin(L.At(s, j), L.At(u, j), rulesOf(j.host), t);
      TwinLater(L.At(s, j), L.At(u, j), rulesOf(j.host), t, now);
    }
  }

  lemma PairedLater(es: seq<L.Event>, rulesOf: RulesOf, t: real, now: real)
    requires CanPair(es, rulesOf, t) && t <= now
    ensures CanPair(es, rulesOf, now)
  {
    var us :| Paired(es, us, rulesOf, t);
    TwinsLater(L.Run(es), L.Run(us), rulesOf, t, now);
    assert Paired(es, us, rulesOf, now);
  }

  lemma PairedRequest(es: seq<L.Event>, e: L.Event, rulesOf: RulesOf, t: real)
    requires e.Acquire? && e.rules == rulesOf(e.k.host) && Sw.Refills(e.rules, 0.0) && t <= e.now
    requires L.Choosable(L.Run(es).table, e.k, e.victim)
    requires |L.Run(es).table| <= L.MAX_PER_SHARD && |L.Run(es + [e]).table| <= L.MAX_PER_SHARD
    requires CanPair(es, rulesOf, t)
    ensures CanPair(es + [e], rulesOf, e.now)
  {
    var us :| Paired(es, us, rulesOf, t);
    RunIsSane(es);
    RunIsSane(us);
    RunMore(es, e);
    var f := RequestTwins(L.Run(es), L.Run(us), rulesOf, t, e);
    RunMore(us, f);
    RerunMore(es, us, e, f);
    SameMore(es, us, e, f);
    assert Paired(es + [e], us + [f], rulesOf, e.now);
  }

  lemma PairedOther(es: seq<L.Event>, e: L.Event, rulesOf: RulesOf, t: real)
    requires (e.Release? && Sw.Refills(rulesOf(e.k.host), 0.0)) || e.Forget?
    requires CanPair(es, rulesOf, t)
    ensures CanPair(es + [e], rulesOf, t)
  {
    var us :| Paired(es, us, rulesOf, t);
    RunMore(es, e);
    RunMore(us, e);
    if e.Release? { ReleaseTwins(L.Run(es), L.Run(us), rulesOf, t, e); } else { ForgetTwins(L.Run(es), L.Run(us), rulesOf, t, e); }
    ShrinksOnly(L.Run(us), e);
    RerunMore(es, us, e, e);
    SameMore(es, us, e, e);
    assert Paired(es + [e], us + [e], rulesOf, t);
  }

  lemma PairedSweep(es: seq<L.Event>, e: L.Event, rulesOf: RulesOf, t: real)
    requires e.Sweep? && t <= e.now && CanPair(es, rulesOf, t)
    ensures CanPair(es + [e], rulesOf, e.now)
  {
    var us :| Paired(es, us, rulesOf, t);
    RunMore(es, e);
    SweepTwins(L.Run(es), L.Run(us), rulesOf, t, e);
    RerunSweep(es, us, e);
    SameWithSweep(es, us, e);
    assert Paired(es + [e], us, rulesOf, e.now);
  }

  lemma ShrinksOnly(s: L.State, e: L.Event)
    requires e.Release? || e.Forget?
    ensures |L.Step(s, e).table| <= |s.table|
  {
    assert L.Step(s, e).table.Keys <= s.table.Keys;
    L.CardMono(L.Step(s, e).table.Keys, s.table.Keys);
  }

  /** No clock reading of the run is later than t. */
  ghost predicate Until(es: seq<L.Event>, t: real) {
    forall i :: 0 <= i < |es| && L.Clocked(es[i]) ==> es[i].now <= t
  }

  lemma UntilLast(es: seq<L.Event>, rulesOf: RulesOf, t: real) returns (at: real)
    requires es != [] && L.Steady(es, rulesOf) && Until(es, t)
    ensures at <= t && Until(es[..|es| - 1], at) && (L.Clocked(es[|es| - 1]) ==> at == es[|es| - 1].now)
    ensures !L.Clocked(es[|es| - 1]) ==> at == t
  {
    at := if L.Clocked(es[|es| - 1]) then es[|es| - 1].now else t;
  }

  lemma SplitLast(es: seq<L.Event>)
    requires es != []
    ensures es == es[..|es| - 1] + [es[|es| - 1]]
  {}

  lemma NobodyPaired(rulesOf: RulesOf, t: real)
    ensures CanPair([], rulesOf, t)
  {
    var none: seq<L.Event> := [];
    forall k ensures Twin(L.At(L.Run(none), k), L.At(L.Run(none), k), rulesOf(k.host), t) {}
    assert Paired(none, none, rulesOf, t);
  }

  lemma {:induction false} RunPaired(es: seq<L.Event>, rulesOf: RulesOf, t: real)
    requires Orderly(es, rulesOf) && Fits(es) && Until(es, t)
    ensures CanPair(es, rulesOf, t)
  {
    if es == [] {
      NobodyPaired(rulesOf, t);
    } else {
      var init, e := es[..|es| - 1], es[|es| - 1];
      var at := UntilLast(es, rulesOf, t);
      OrderlyPrefix(es, rulesOf);
      FitsPrefix(es);
      RunPaired(init, rulesOf, at);
      SplitLast(es);
      PairNext(init, e, es, rulesOf, at);
      PairedLater(es, rulesOf, at, t);
    }
  }

  lemma PairNext(init: seq<L.Event>, e: L.Event, es: seq<L.Event>, rulesOf: RulesOf, at: real)
    requires es == init + [e] && CanPair(init, rulesOf, at) && Orderly(es, rulesOf) && (L.Clocked(e) ==> at == e.now)
    requires |L.Run(init).table| <= L.MAX_PER_SHARD && |L.Run(es).table| <= L.MAX_PER_SHARD
    ensures CanPair(es, rulesOf, at)
  {
    assert es[|init|] == e && es[..|init|] == init && ChosenAt(es, |init|);
    match e
    case Acquire(_, _, _, _, _) => PairedRequest(init, e, rulesOf, at);
    case Sweep(_) => PairedSweep(init, e, rulesOf, at);
    case _ => PairedOther(init, e, rulesOf, at);
  }

  /** There is a run without sweeps that answers every client as this one does. */
  ghost predicate Invisible(es: seq<L.Event>) {
    exists us :: Rerun(es, us) && SameAnswers(es, us)
  }

  /** Sweeping a shard, whenever it happens, shows nowhere, evictions included: when every host's
      bucket refills within the idle period and the table never outgrows its cap, a run of the same
      requests without sweeps answers every client alike. */
  lemma ShardSweepsInvisible(es: seq<L.Event>, rulesOf: RulesOf)
    requires Orderly(es, rulesOf) && Fits(es)
    ensures Invisible(es)
  {
    var t := LatestClock(es);
    RunPaired(es, rulesOf, t);
    var us :| Paired(es, us, rulesOf, t);
  }

  lemma {:induction false} LatestClock(es: seq<L.Event>) returns (t: real)
    ensures Until(es, t)
  {
    t := 0.0;
    if es != [] {
      t := LatestClock(es[..|es| - 1]);
      var e := es[|es| - 1];
      if L.Clocked(e) && e.now > t { t := e.now; }
    }
  }

  // ----- the cap is kept while no more clients are in flight than it -----

  ghost function InFlight(s: L.State): set<Key> { set k | k in s.open && s.open[k] != {} }

  /** Never more than n clients with a request in flight. */
  ghost predicate AtMost(es: seq<L.Event>, n: nat) {
    forall i :: 0 <= i <= |es| ==> |InFlight(L.Run(es[..i]))| <= n
  }

  lemma AtMostPrefix(es: seq<L.Event>, n: nat)
    requires es != [] && AtMost(es, n)
    ensures AtMost(es[..|es| - 1], n)
    ensures |InFlight(L.Run(es))| <= n && |InFlight(L.Run(es[..|es| - 1]))| <= n
  {
    var init := es[..|es| - 1];
    forall i | 0 <= i <= |init| ensures |InFlight(L.Run(init[..i]))| <= n {
      assert init[..i] == es[..i];
    }
    assert es[..|es|] == es && init[..|init|] == init;
  }

  /** With nothing idle, every record's client is in flight. */
  lemma BusyAreInFlight(es: seq<L.Event>)
    requires L.OwnIds(es) && !AnyIdle(L.Run(es).table)
    ensures L.Run(es).table.Keys <= InFlight(L.Run(es))
  {
    var s := L.Run(es);
    forall k | k in s.table ensures k in InFlight(s) {
      L.SlotsAreCounted(es, k);
      assert !L.Idle(s.table[k]);
      assert Active(L.At(s, k)) == s.table[k].active;
    }
  }

  /** A client without a record is admitted. */
  lemma NewcomerIsAdmitted(r: Rec, e: L.Event)
    requires e.Acquire? && r.client.None?
    ensures e.id in Step(r, Acquire(e.id, e.rules, e.now)).open
  {}

  lemma NewcomerInFlight(s: L.State, e: L.Event)
    requires e.Acquire? && e.k !in s.table && !Evicts(s.table, e.k)
    ensures InFlight(s) + {e.k} <= InFlight(L.Step(s, e))
  {
    assert L.Roomier(s.table, e.k, e.victim) == s.table;
    NewcomerIsAdmitted(L.At(s, e.k), e);
  }

  lemma FitsNext(es: seq<L.Event>, e: L.Event)
    requires L.OwnIds(es) && |L.Run(es).table| <= L.MAX_PER_SHARD
    requires e.Acquire? ==> L.Choosable(L.Run(es).table, e.k, e.victim)
    requires |InFlight(L.Step(L.Run(es), e))| <= L.MAX_PER_SHARD
    ensures |L.Step(L.Run(es), e).table| <= L.MAX_PER_SHARD
  {
    var s := L.Run(es);
    match e
    case Acquire(k, _, _, _, v) =>
      StepIsJudge(s, e);
      GrowsByOne(Roomed(s, k, v), e);
      RoomIs(s.table, k, v);
      if Evicts(s.table, k) {
        assert |s.table - {v}| == |s.table| - 1;
      } else if k !in s.table && |s.table| >= L.MAX_PER_SHARD {
        BusyAreInFlight(es);
        NewcomerInFlight(s, e);
        TooManyInFlight(s.table, k, InFlight(L.Step(s, e)));
      }
    case Sweep(_) =>
      assert L.Step(s, e).table.Keys <= s.table.Keys;
      L.CardMono(L.Step(s, e).table.Keys, s.table.Keys);
    case _ => ShrinksOnly(s, e);
  }

  lemma TooManyInFlight(t: Table, k: Key, busy: set<Key>)
    requires t.Keys + {k} <= busy && k !in t
    ensures |busy| >= |t| + 1
  {
    L.CardMono(t.Keys + {k}, busy);
  }

  /** While at most as many clients are in flight as the shard has room for, whatever is forgotten,
      its table never outgrows the cap. */
  lemma {:induction false} FewInFlightFit(es: seq<L.Event>)
    requires L.OwnIds(es) && Chosen(es) && AtMost(es, L.MAX_PER_SHARD)
    ensures |L.Run(es).table| <= L.MAX_PER_SHARD
  {
    if es != [] {
      var init, e := es[..|es| - 1], es[|es| - 1];
      ChosenPrefix(es);
      AtMostPrefix(es, L.MAX_PER_SHARD);
      FewInFlightFit(init);
      assert ChosenAt(es, |init|);
      FitsNext(init, e);
    }
  }

  lemma ChosenUpTo(es: seq<L.Event>, n: nat)
    requires Chosen(es) && n <= |es|
    ensures Chosen(es[..n])
  {
    forall i | 0 <= i < n ensures ChosenAt(es[..n], i) {
      assert es[..n][..i] == es[..i] && ChosenAt(es, i);
    }
  }

  lemma AtMostUpTo(es: seq<L.Event>, n: nat, most: nat)
    requires AtMost(es, most) && n <= |es|
    ensures AtMost(es[..n], most)
  {
    forall i | 0 <= i <= n ensures |InFlight(L.Run(es[..n][..i]))| <= most {
      assert es[..n][..i] == es[..i];
    }
  }

  lemma FewInFlightFits(es: seq<L.Event>)
    requires L.OwnIds(es) && Chosen(es) && AtMost(es, L.MAX_PER_SHARD)
    ensures Fits(es)
  {
    forall n | 0 <= n <= |es| ensures FitsAt(es, n) {
      ChosenUpTo(es, n);
      AtMostUpTo(es, n, L.MAX_PER_SHARD);
      FewInFlightFit(es[..n]);
    }
  }
}

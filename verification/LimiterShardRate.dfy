/** The rate bound over a whole shard, whose evictions hand out full buckets: it stands exactly while
    the shard has room for all its clients.
 */
module LimiterShardRate {
  import opened Basics
  import opened LimiterRecord
  import opened LimiterEviction
  import L = Limiter
  import Sw = LimiterSweep
  import R = LimiterRate
  import O = LimiterOverflow

  /** The requests of client k that read the clock in [a, b] and were admitted. */
  ghost function GrantedTo(es: seq<L.Event>, k: Key, a: real, b: real): nat {
    if es == [] then 0
    else
      var init, e := es[..|es| - 1], es[|es| - 1];
      GrantedTo(init, k, a, b)
      + if e.Acquire? && e.k == k && R.In(e.now, a, b) && L.VerdictOf(L.Run(init), e).Admitted? then 1 else 0
  }

  lemma GrantedMore(es: seq<L.Event>, e: L.Event, k: Key, a: real, b: real)
    ensures GrantedTo(es + [e], k, a, b) == GrantedTo(es, k, a, b)
              + if e.Acquire? && e.k == k && R.In(e.now, a, b) && Answer(L.At(L.Run(es), k), e.rules, e.now).Admitted? then 1 else 0
  {
    assert (es + [e])[..|es|] == es;
    if e.Acquire? { L.VerdictIsOwn(L.Run(es), e); }
  }

  // ----- a shard with room for everyone -----

  lemma OneSeenIn(before: seq<Event>, seen: seq<Event>, a: real, b: real)
    requires |seen| <= 1
    ensures R.GrantedIn(NONE, before + seen, a, b) == R.GrantedIn(NONE, before, a, b)
              + if |seen| == 1 && seen[0].Acquire? && R.In(seen[0].now, a, b)
                   && Answer(Run(NONE, before), seen[0].rules, seen[0].now).Admitted? then 1 else 0
  {
    if |seen| == 1 {
      assert seen == [seen[0]];
      R.GrantedMoreIn(NONE, before, seen[0], a, b);
    } else {
      assert before + seen == before;
    }
  }

  lemma OwnGrant(init: seq<L.Event>, e: L.Event, k: Key, a: real, b: real)
    ensures var seen := L.Seen(L.Run(init), e, k);
            R.GrantedIn(NONE, L.Trace(init, k) + seen, a, b) == R.GrantedIn(NONE, L.Trace(init, k), a, b)
              + if e.Acquire? && e.k == k && R.In(e.now, a, b) && L.VerdictOf(L.Run(init), e).Admitted? then 1 else 0
  {
    L.ClientsAreIndependent(init, k);
    OneSeenIn(L.Trace(init, k), L.Seen(L.Run(init), e, k), a, b);
    if e.Acquire? && e.k == k { L.VerdictIsOwn(L.Run(init), e); }
  }

  /** What a client is granted in the shard is what its own events grant it. */
  lemma {:induction false} GrantsAreOwn(es: seq<L.Event>, k: Key, a: real, b: real)
    ensures GrantedTo(es, k, a, b) == R.GrantedIn(NONE, L.Trace(es, k), a, b)
  {
    if es != [] {
      GrantsAreOwn(es[..|es| - 1], k, a, b);
      OwnGrant(es[..|es| - 1], es[|es| - 1], k, a, b);
    }
  }

  ghost predicate WindowOk(es: seq<L.Event>, k: Key, rules: Rules, a: real, d: real) {
    GrantedTo(es, k, a, a + d) as real <= Max(rules.burst, rules.rps) as real + Earned(rules, d)
  }

  /** One set of rules that refills in time, one clock, one release per request, evictions the scan
      could make, no Forget, and requests of clients in `keys` only. */
  ghost predicate Plain(es: seq<L.Event>, rulesOf: RulesOf, rules: Rules, keys: set<Key>) {
    && L.Steady(es, rulesOf) && (forall h :: rulesOf(h) == rules) && Chosen(es) && L.NeverForgets(es)
    && O.AsksFrom(es, keys)
  }

  lemma MineBound(es: seq<L.Event>, rulesOf: RulesOf, keys: set<Key>, k: Key, a: real, d: real)
    requires L.Steady(es, rulesOf) && L.FewClients(es, keys) && L.NeverForgets(es)
    requires rulesOf(k.host).rps > 0 && Sw.Refills(rulesOf(k.host), 0.0) && d >= 0.0
    ensures R.WindowOk(L.Mine(es, k), rulesOf(k.host), a, d)
  {
    L.TraceIsMine(es, k, keys);
    L.TraceForgets(es, k);
    L.MineOrdinary(es, k, rulesOf, keys);
    R.SweptWindowBound(L.Mine(es, k), rulesOf(k.host), a, d);
  }

  lemma MineGrants(es: seq<L.Event>, keys: set<Key>, k: Key, a: real, b: real)
    requires L.FewClients(es, keys)
    ensures GrantedTo(es, k, a, b) == R.GrantedIn(NONE, L.Mine(es, k), a, b)
  {
    GrantsAreOwn(es, k, a, b);
    L.TraceIsMine(es, k, keys);
  }

  lemma RoomyBound(es: seq<L.Event>, rulesOf: RulesOf, rules: Rules, keys: set<Key>, k: Key, a: real, d: real)
    requires rules.rps > 0 && Sw.Refills(rules, 0.0) && Plain(es, rulesOf, rules, keys) && |keys| <= L.MAX_PER_SHARD && d >= 0.0
    ensures WindowOk(es, k, rules, a, d)
  {
    MineBound(es, rulesOf, keys, k, a, d);
    MineGrants(es, keys, k, a, a + d);
  }

  // ----- one client more: the first drains its bucket, everyone asks once -----

  function K(i: nat): Key { O.K(i) }

  const CAP: nat := L.MAX_PER_SHARD

  /** Client 0 asked n times at time 0 and clients 1 to m - 1 once, all given back. */
  ghost function SpreadAt(rules: Rules, n: nat, m: nat, k: Key): Rec {
    if k == K(0) then Sw.Spent(rules, 0.0, n)
    else if k.host == 0 && k.addr < m then Sw.Spent(rules, 0.0, 1)
    else NONE
  }

  ghost predicate Spread(s: L.State, rules: Rules, n: nat, m: nat) {
    forall k :: L.At(s, k) == SpreadAt(rules, n, m, k)
  }

  function Ask(i: nat, id: nat, rules: Rules): L.Event { L.Acquire(K(i), id, rules, 0.0, K(0)) }

  function Both(es: seq<L.Event>, i: nat, id: nat, rules: Rules): seq<L.Event> {
    es + [Ask(i, id, rules)] + [L.Release(K(i), id)]
  }

  /** A request and its release, without an eviction, move one record. */
  lemma BothAt(s: L.State, i: nat, id: nat, rules: Rules, j: Key)
    requires !Evicts(s.table, K(i))
    ensures L.At(L.Step(L.Step(s, Ask(i, id, rules)), L.Release(K(i), id)), j) ==
            if j == K(i) then Step(Step(L.At(s, j), Acquire(id, rules, 0.0)), Release(id)) else L.At(s, j)
  {
    O.QuietAcquire(s, Ask(i, id, rules), j);
    O.ReleaseAt(L.Step(s, Ask(i, id, rules)), L.Release(K(i), id), j);
  }

  lemma SpreadKeys(s: L.State, rules: Rules, n: nat, m: nat, k: Key)
    requires Spread(s, rules, n, m) && m > 0
    ensures k in s.table.Keys <==> k in O.Keys(m) && (n > 0 || k != K(0))
  {
    O.TableOf(s, k);
    assert L.At(s, k) == SpreadAt(rules, n, m, k);
  }

  lemma SpreadSize(s: L.State, rules: Rules, n: nat, m: nat)
    requires Spread(s, rules, n, m) && m > 0
    ensures |s.table| <= m && (n > 0 ==> |s.table| == m && s.table.Keys == O.Keys(m))
  {
    forall k ensures k in s.table.Keys <==> k in O.Keys(m) && (n > 0 || k != K(0)) { SpreadKeys(s, rules, n, m, k); }
    assert |s.table| == |s.table.Keys|;
    L.CardMono(s.table.Keys, O.Keys(m));
    if n > 0 { assert s.table.Keys == O.Keys(m); }
  }

  lemma NoEvictionYet(s: L.State, rules: Rules, n: nat, m: nat, i: nat)
    requires Spread(s, rules, n, m) && 0 < m && (i < m || m < CAP) && (i == 0 ==> m < CAP)
    requires i < m ==> i == 0
    ensures !Evicts(s.table, K(i))
  {
    SpreadSize(s, rules, n, m);
    SpreadKeys(s, rules, n, m, K(i));
  }

  lemma SpreadFirst(s: L.State, rules: Rules, n: nat, id: nat)
    requires rules.rps > 0 && Spread(s, rules, n, 1) && n < BurstOf(rules) && 1 < CAP
    ensures Spread(L.Step(L.Step(s, Ask(0, id, rules)), L.Release(K(0), id)), rules, n + 1, 1)
  {
    NoEvictionYet(s, rules, n, 1, 0);
    Sw.PairStep(rules, 0.0, n + 1, id);
    forall j ensures L.At(L.Step(L.Step(s, Ask(0, id, rules)), L.Release(K(0), id)), j) == SpreadAt(rules, n + 1, 1, j) {
      BothAt(s, 0, id, rules, j);
      assert L.At(s, j) == SpreadAt(rules, n, 1, j);
    }
  }

  lemma SpreadNext(s: L.State, rules: Rules, n: nat, m: nat, id: nat)
    requires rules.rps > 0 && Spread(s, rules, n, m) && 0 < m < CAP
    ensures Spread(L.Step(L.Step(s, Ask(m, id, rules)), L.Release(K(m), id)), rules, n, m + 1)
  {
    NoEvictionYet(s, rules, n, m, m);
    Sw.PairStep(rules, 0.0, 1, id);
    assert Sw.Spent(rules, 0.0, 0) == NONE;
    forall j ensures L.At(L.Step(L.Step(s, Ask(m, id, rules)), L.Release(K(m), id)), j) == SpreadAt(rules, n, m + 1, j) {
      BothAt(s, m, id, rules, j);
      assert L.At(s, j) == SpreadAt(rules, n, m, j);
    }
  }

  // ----- the run -----

  lemma RunBoth(es: seq<L.Event>, i: nat, id: nat, rules: Rules)
    ensures L.Run(Both(es, i, id, rules)) == L.Step(L.Step(L.Run(es), Ask(i, id, rules)), L.Release(K(i), id))
  {
    RunMore(es, Ask(i, id, rules));
    RunMore(es + [Ask(i, id, rules)], L.Release(K(i), id));
  }

  lemma BothGood(es: seq<L.Event>, i: nat, id: nat, t: real, rulesOf: RulesOf, rules: Rules, keys: set<Key>)
    requires t <= 0.0 && O.Good(es, rulesOf, id, t) && (forall h :: rulesOf(h) == rules) && !Evicts(L.Run(es).table, K(i))
    requires L.NeverForgets(es) && O.AsksFrom(es, keys) && K(i) in keys
    ensures var both := Both(es, i, id, rules);
            O.Good(both, rulesOf, id + 1, 0.0) && L.NeverForgets(both) && O.AsksFrom(both, keys)
  {
    O.GoodMore(es, Ask(i, id, rules), rulesOf, id, t);
    O.GoodMore(es + [Ask(i, id, rules)], L.Release(K(i), id), rulesOf, id + 1, 0.0);
    O.AsksMore(es, Ask(i, id, rules), keys);
    O.AsksMore(es + [Ask(i, id, rules)], L.Release(K(i), id), keys);
  }

  lemma BothGrants(es: seq<L.Event>, i: nat, id: nat, rules: Rules)
    ensures GrantedTo(Both(es, i, id, rules), K(0), 0.0, 0.0) == GrantedTo(es, K(0), 0.0, 0.0)
              + if i == 0 && Answer(L.At(L.Run(es), K(0)), rules, 0.0).Admitted? then 1 else 0
  {
    GrantedMore(es, Ask(i, id, rules), K(0), 0.0, 0.0);
    GrantedMore(es + [Ask(i, id, rules)], L.Release(K(i), id), K(0), 0.0, 0.0);
  }

  /** The first client's n requests. */
  function Drain(rules: Rules, n: nat): seq<L.Event> {
    if n == 0 then [] else Both(Drain(rules, n - 1), 0, n - 1, rules)
  }

  /** Those, and one request each of the next m - 1 clients. */
  function Everyone(rules: Rules, n: nat, m: nat): seq<L.Event>
    requires m > 0
  {
    if m == 1 then Drain(rules, n) else Both(Everyone(rules, n, m - 1), m - 1, n + m - 2, rules)
  }

  lemma NobodySpread(rules: Rules)
    ensures Spread(L.Run([]), rules, 0, 1)
  {
    forall k ensures L.At(L.Run([]), k) == SpreadAt(rules, 0, 1, k) {}
  }

  lemma BothFirst(es: seq<L.Event>, rules: Rules, n: nat, id: nat)
    requires rules.rps > 0 && n < BurstOf(rules) && Spread(L.Run(es), rules, n, 1)
    ensures Spread(L.Run(Both(es, 0, id, rules)), rules, n + 1, 1)
  {
    RunBoth(es, 0, id, rules);
    SpreadFirst(L.Run(es), rules, n, id);
  }

  lemma BothNext(es: seq<L.Event>, rules: Rules, n: nat, m: nat, id: nat)
    requires rules.rps > 0 && 0 < m < CAP && Spread(L.Run(es), rules, n, m)
    ensures Spread(L.Run(Both(es, m, id, rules)), rules, n, m + 1)
  {
    RunBoth(es, m, id, rules);
    SpreadNext(L.Run(es), rules, n, m, id);
  }

  /** The run keeps to the rules, its clock has not passed 0, and it asks from m clients only. */
  ghost predicate Fair(es: seq<L.Event>, rulesOf: RulesOf, id: nat, m: nat) {
    exists t :: t <= 0.0 && O.Good(es, rulesOf, id, t) && L.NeverForgets(es) && O.AsksFrom(es, O.Keys(m))
  }

  lemma FairEmpty(rulesOf: RulesOf, m: nat)
    ensures Fair([], rulesOf, 0, m)
  {
    O.GoodEmpty(rulesOf);
  }

  lemma FairBoth(es: seq<L.Event>, rulesOf: RulesOf, rules: Rules, i: nat, id: nat, m: nat, w: nat)
    requires (forall h :: rulesOf(h) == rules) && Fair(es, rulesOf, id, m) && m <= w && i < w && !Evicts(L.Run(es).table, K(i))
    ensures Fair(Both(es, i, id, rules), rulesOf, id + 1, w)
  {
    var t :| t <= 0.0 && O.Good(es, rulesOf, id, t) && L.NeverForgets(es) && O.AsksFrom(es, O.Keys(m));
    assert O.AsksFrom(es, O.Keys(w)) by { assert O.Keys(m) <= O.Keys(w); }
    BothGood(es, i, id, t, rulesOf, rules, O.Keys(w));
  }

  /** A fair run that leaves the shard spread so. */
  ghost predicate Staged(es: seq<L.Event>, rulesOf: RulesOf, rules: Rules, n: nat, m: nat) {
    exists id: nat :: id == n + m - 1 && Fair(es, rulesOf, id, m) && Spread(L.Run(es), rules, n, m)
  }

  lemma StagedEmpty(rulesOf: RulesOf, rules: Rules)
    ensures Staged([], rulesOf, rules, 0, 1)
  {
    FairEmpty(rulesOf, 1);
    NobodySpread(rules);
  }

  lemma StagedFirst(es: seq<L.Event>, rulesOf: RulesOf, rules: Rules, n: nat)
    requires rules.rps > 0 && (forall h :: rulesOf(h) == rules) && n < BurstOf(rules) && Staged(es, rulesOf, rules, n, 1)
    ensures Staged(Both(es, 0, n, rules), rulesOf, rules, n + 1, 1)
  {
    NoEvictionYet(L.Run(es), rules, n, 1, 0);
    FairBoth(es, rulesOf, rules, 0, n, 1, 1);
    BothFirst(es, rules, n, n);
  }

  lemma StagedNext(es: seq<L.Event>, rulesOf: RulesOf, rules: Rules, n: nat, m: nat)
    requires rules.rps > 0 && (forall h :: rulesOf(h) == rules) && 0 < m < CAP && Staged(es, rulesOf, rules, n, m)
    ensures Staged(Both(es, m, n + m - 1, rules), rulesOf, rules, n, m + 1)
  {
    NextFair(es, rulesOf, rules, n, m, n + m - 1);
    BothNext(es, rules, n, m, n + m - 1);
  }

  lemma NextFair(es: seq<L.Event>, rulesOf: RulesOf, rules: Rules, n: nat, m: nat, id: nat)
    requires (forall h :: rulesOf(h) == rules) && 0 < m < CAP && Fair(es, rulesOf, id, m) && Spread(L.Run(es), rules, n, m)
    ensures Fair(Both(es, m, id, rules), rulesOf, id + 1, m + 1)
  {
    NoEvictionYet(L.Run(es), rules, n, m, m);
    FairBoth(es, rulesOf, rules, m, id, m, m + 1);
  }

  lemma {:induction false} DrainStaged(rulesOf: RulesOf, rules: Rules, n: nat)
    requires rules.rps > 0 && (forall h :: rulesOf(h) == rules) && n <= BurstOf(rules)
    ensures Staged(Drain(rules, n), rulesOf, rules, n, 1)
  {
    if n == 0 {
      StagedEmpty(rulesOf, rules);
    } else {
      DrainStaged(rulesOf, rules, n - 1);
      StagedFirst(Drain(rules, n - 1), rulesOf, rules, n - 1);
    }
  }

  lemma {:induction false} EveryoneStaged(rulesOf: RulesOf, rules: Rules, n: nat, m: nat)
    requires rules.rps > 0 && (forall h :: rulesOf(h) == rules) && n <= BurstOf(rules) && 0 < m <= CAP
    ensures Staged(Everyone(rules, n, m), rulesOf, rules, n, m)
  {
    if m == 1 {
      DrainStaged(rulesOf, rules, n);
    } else {
      EveryoneStaged(rulesOf, rules, n, m - 1);
      StagedNext(Everyone(rules, n, m - 1), rulesOf, rules, n, m - 1);
    }
  }

  lemma MineBoth(es: seq<L.Event>, i: nat, id: nat, rules: Rules)
    ensures L.Mine(Both(es, i, id, rules), K(0)) ==
            if i == 0 then L.Mine(es, K(0)) + [Acquire(id, rules, 0.0)] + [Release(id)] else L.Mine(es, K(0))
  {
    var a := es + [Ask(i, id, rules)];
    assert a[..|es|] == es && Both(es, i, id, rules)[..|a|] == a;
    if i != 0 { assert L.Mine(es, K(0)) + [] == L.Mine(es, K(0)); }
  }

  lemma {:induction false} MineDrain(rules: Rules, n: nat)
    ensures L.Mine(Drain(rules, n), K(0)) == Sw.Pairs(rules, 0.0, n, 0)
  {
    if n > 0 {
      MineDrain(rules, n - 1);
      MineFirst(Drain(rules, n - 1), rules, n - 1);
    }
  }

  lemma MineFirst(es: seq<L.Event>, rules: Rules, n: nat)
    requires L.Mine(es, K(0)) == Sw.Pairs(rules, 0.0, n, 0)
    ensures L.Mine(Both(es, 0, n, rules), K(0)) == Sw.Pairs(rules, 0.0, n + 1, 0)
  {
    MineBoth(es, 0, n, rules);
  }

  lemma {:induction false} MineEveryone(rules: Rules, n: nat, m: nat)
    requires m > 0
    ensures L.Mine(Everyone(rules, n, m), K(0)) == Sw.Pairs(rules, 0.0, n, 0)
  {
    if m == 1 {
      MineDrain(rules, n);
    } else {
      MineEveryone(rules, n, m - 1);
      MineBoth(Everyone(rules, n, m - 1), m - 1, n + m - 2, rules);
    }
  }

  lemma StagedGrants(es: seq<L.Event>, rulesOf: RulesOf, rules: Rules, n: nat, m: nat)
    requires rules.rps > 0 && n <= BurstOf(rules) && m <= CAP && Staged(es, rulesOf, rules, n, m)
    requires L.Mine(es, K(0)) == Sw.Pairs(rules, 0.0, n, 0)
    ensures GrantedTo(es, K(0), 0.0, 0.0) == n
  {
    assert L.FewClients(es, O.Keys(m));
    MineGrants(es, O.Keys(m), K(0), 0.0, 0.0);
    R.BurstIn(rules, 0.0, n, 0, 0.0, 0.0);
  }

  // ----- the newcomer pushes the first client out -----

  lemma AllEquallyOld(s: L.State, rules: Rules, n: nat, m: nat)
    requires Spread(s, rules, n, m) && n > 0 && m > 0
    ensures L.OldestIdle(s.table, K(0)) && |s.table| == m && K(m) !in s.table
  {
    SpreadSize(s, rules, n, m);
    forall k | k in s.table ensures L.Idle(s.table[k]) && s.table[k].seen == 0.0 {
      assert L.At(s, k) == SpreadAt(rules, n, m, k);
    }
  }

  lemma PushedOut(s: L.State, rules: Rules, n: nat, m: nat, e: L.Event)
    requires m == CAP && n > 0 && Spread(s, rules, n, m) && e.Acquire? && e.k == K(m) && e.victim == K(0)
    ensures L.Choosable(s.table, e.k, e.victim) && L.At(L.Step(s, e), K(0)).client.None?
  {
    AllEquallyOld(s, rules, n, m);
    assert AnyIdle(s.table);
    O.NewcomerAt(s, m, e, 0);
  }

  lemma FullBucket(r: Rec, rules: Rules)
    requires r.client.None?
    ensures Answer(r, rules, 0.0).Admitted?
  {}

  lemma FairMore(es: seq<L.Event>, rulesOf: RulesOf, e: L.Event, id: nat, m: nat, w: nat)
    requires Fair(es, rulesOf, id, m) && m <= w && e.Acquire? && e.k.host == 0 && e.k.addr < w
    requires e.rules == rulesOf(e.k.host) && e.id == id && e.now == 0.0 && L.Choosable(L.Run(es).table, e.k, e.victim)
    ensures Fair(es + [e], rulesOf, id + 1, w)
  {
    var t :| t <= 0.0 && O.Good(es, rulesOf, id, t) && L.NeverForgets(es) && O.AsksFrom(es, O.Keys(m));
    assert O.AsksFrom(es, O.Keys(w)) by { assert O.Keys(m) <= O.Keys(w); }
    O.GoodMore(es, e, rulesOf, id, t);
    O.AsksMore(es, e, O.Keys(w));
  }

  lemma FairIsPlain(es: seq<L.Event>, rulesOf: RulesOf, rules: Rules, id: nat, m: nat)
    requires Fair(es, rulesOf, id, m) && forall h :: rulesOf(h) == rules
    ensures Plain(es, rulesOf, rules, O.Keys(m))
  {}

  /** The first client has had its burst and lost its record. */
  ghost predicate Forgotten(es: seq<L.Event>, rulesOf: RulesOf, rules: Rules, m: nat) {
    exists id: nat :: Fair(es, rulesOf, id, m) && L.At(L.Run(es), K(0)).client.None?
                 && GrantedTo(es, K(0), 0.0, 0.0) == BurstOf(rules)
  }

  /** The newcomer, and the first client again. */
  lemma BoundBroken(es: seq<L.Event>, rulesOf: RulesOf, rules: Rules, n: nat, m: nat, most: nat)
    requires rules.rps > 0 && (forall h :: rulesOf(h) == rules) && m == CAP < most && n == BurstOf(rules)
    requires Staged(es, rulesOf, rules, n, m) && GrantedTo(es, K(0), 0.0, 0.0) == n
    ensures !StandsFor(rules, most)
  {
    var e := Newcomer(es, rulesOf, rules, n, m);
    FirstAgain(es + [e], rulesOf, rules, m + 1, most);
  }

  lemma Newcomer(es: seq<L.Event>, rulesOf: RulesOf, rules: Rules, n: nat, m: nat) returns (e: L.Event)
    requires (forall h :: rulesOf(h) == rules) && m == CAP && n == BurstOf(rules) && n > 0 && Staged(es, rulesOf, rules, n, m)
    requires GrantedTo(es, K(0), 0.0, 0.0) == n
    ensures Forgotten(es + [e], rulesOf, rules, m + 1)
  {
    e := Ask(m, n + m - 1, rules);
    PushedOut(L.Run(es), rules, n, m, e);
    RunMore(es, e);
    FairMore(es, rulesOf, e, n + m - 1, m, m + 1);
    GrantedMore(es, e, K(0), 0.0, 0.0);
    assert Fair(es + [e], rulesOf, n + m, m + 1);
  }

  lemma FirstAgain(es: seq<L.Event>, rulesOf: RulesOf, rules: Rules, m: nat, most: nat)
    requires (forall h :: rulesOf(h) == rules) && 0 < m <= most && Forgotten(es, rulesOf, rules, m)
    ensures !StandsFor(rules, most)
  {
    var id: nat :| Fair(es, rulesOf, id, m);
    var v := SomeChoice(L.Run(es).table, K(0));
    var g := L.Acquire(K(0), id, rules, 0.0, v);
    FairMore(es, rulesOf, g, id, m, m);
    FullBucket(L.At(L.Run(es), K(0)), rules);
    GrantedMore(es, g, K(0), 0.0, 0.0);
    FairBreaks(es + [g], rulesOf, rules, id + 1, m, most);
  }

  lemma FairBreaks(all: seq<L.Event>, rulesOf: RulesOf, rules: Rules, id: nat, m: nat, most: nat)
    requires Fair(all, rulesOf, id, m) && (forall h :: rulesOf(h) == rules) && m <= most
    requires GrantedTo(all, K(0), 0.0, 0.0) == BurstOf(rules) + 1
    ensures !StandsFor(rules, most)
  {
    FairIsPlain(all, rulesOf, rules, id, m);
    NoneEarned(all, rules);
    assert |O.Keys(m)| <= most && 0.0 >= 0.0;
  }

  /** The bound stands for every window and client of every plain run of at most n clients. */
  ghost predicate StandsFor(rules: Rules, n: nat) {
    forall es, rulesOf, keys, k, a, d :: Plain(es, rulesOf, rules, keys) && |keys| <= n && d >= 0.0 ==> WindowOk(es, k, rules, a, d)
  }

  lemma TooManyClients(rules: Rules, n: nat)
    requires rules.rps > 0 && n > CAP
    ensures !StandsFor(rules, n)
  {
    var rulesOf: RulesOf := _ => rules;
    Break(rulesOf, rules, CAP, n);
  }

  lemma Break(rulesOf: RulesOf, rules: Rules, m: nat, n: nat)
    requires rules.rps > 0 && (forall h :: rulesOf(h) == rules) && m == CAP < n
    ensures !StandsFor(rules, n)
  {
    var b: nat := BurstOf(rules);
    EveryoneStaged(rulesOf, rules, b, m);
    MineEveryone(rules, b, m);
    StagedGrants(Everyone(rules, b, m), rulesOf, rules, b, m);
    BoundBroken(Everyone(rules, b, m), rulesOf, rules, b, m, n);
  }

  lemma NoneEarned(es: seq<L.Event>, rules: Rules)
    requires GrantedTo(es, K(0), 0.0, 0.0) == BurstOf(rules) + 1
    ensures !WindowOk(es, K(0), rules, 0.0, 0.0)
  {
    assert Earned(rules, 0.0) == 0.0 && 0.0 + 0.0 == 0.0;
  }

  /** For rules that refill in time, burst + rate * d stands for every client of every run of at most
      n clients exactly when the shard has room for n. */
  lemma StandsForExactly(rules: Rules, n: nat)
    requires rules.rps > 0 && Max(rules.burst, rules.rps) as real <= Earned(rules, 600.0)
    ensures StandsFor(rules, n) <==> n <= 16384
  {
    assert Sw.Refills(rules, 0.0) by { assert 600.0 - 2.0 * 0.0 == 600.0; }
    if n <= L.MAX_PER_SHARD {
      forall es, rulesOf, keys, k, a, d | Plain(es, rulesOf, rules, keys) && |keys| <= n && d >= 0.0
        ensures WindowOk(es, k, rules, a, d)
      {
        RoomyBound(es, rulesOf, rules, keys, k, a, d);
      }
    } else {
      TooManyClients(rules, n);
    }
  }
}

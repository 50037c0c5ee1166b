/** A shard pushed past its cap, by more clients in flight at once than it holds records, can show
    a sweep: the run in which it does.
 */
module LimiterOverflow {
  import opened Basics
  import opened LimiterRecord
  import opened LimiterEviction
  import L = Limiter
  import Sw = LimiterSweep

  /** One request a second, no burst. */
  const RULES := Rules(1, 0, 0)

  const CAP: nat := L.MAX_PER_SHARD

  const LATE: real := 601.0

  function K(i: nat): Key { L.Key(0, i) }

  ghost function Keys(n: nat): (r: set<Key>)
    ensures forall k :: k in r <==> k.host == 0 && k.addr < n
    ensures |r| == n
  {
    if n == 0 then {} else Keys(n - 1) + {K(n - 1)}
  }

  // ----- one event, client by client -----

  lemma QuietAcquire(s: L.State, e: L.Event, j: Key)
    requires e.Acquire? && !Evicts(s.table, e.k)
    ensures L.At(L.Step(s, e), j) == if j == e.k then Step(L.At(s, j), Acquire(e.id, e.rules, e.now)) else L.At(s, j)
  {
    assert L.Roomier(s.table, e.k, e.victim) == s.table;
    L.PutAt(s, e.k, Step(L.At(s, e.k), Acquire(e.id, e.rules, e.now)), j);
  }

  lemma ReleaseAt(s: L.State, e: L.Event, j: Key)
    requires e.Release?
    ensures L.At(L.Step(s, e), j) == if j == e.k then Step(L.At(s, j), Release(e.id)) else L.At(s, j)
  {
    L.PutAt(s, e.k, Step(L.At(s, e.k), Release(e.id)), j);
  }

  // ----- filling the shard -----

  /** A record with one request in flight and nothing left in its bucket. */
  const BUSY := Client(0.0, 0.0, 1, 0.0)

  ghost function BusyAt(n: nat, k: Key): Rec {
    if k.host == 0 && k.addr < n then Rec(Some(BUSY), {k.addr}) else NONE
  }

  ghost predicate Filled(s: L.State, n: nat) { forall k :: L.At(s, k) == BusyAt(n, k) }

  function FillEvent(i: nat): L.Event { L.Acquire(K(i), i, RULES, 0.0, K(0)) }

  lemma NoneIdle(s: L.State, n: nat)
    requires Filled(s, n)
    ensures !AnyIdle(s.table)
  {
    forall k | k in s.table ensures !L.Idle(s.table[k]) {
      assert L.At(s, k) == BusyAt(n, k);
    }
  }

  lemma FirstRequest(id: nat)
    ensures Step(NONE, Acquire(id, RULES, 0.0)) == Rec(Some(BUSY), {id})
  {}

  lemma FillMore(s: L.State, e: L.Event, n: nat)
    requires Filled(s, n) && e.Acquire? && e.k == K(n) && e.id == n && e.rules == RULES && e.now == 0.0
    ensures Filled(L.Step(s, e), n + 1)
  {
    NoneIdle(s, n);
    FirstRequest(n);
    forall k ensures L.At(L.Step(s, e), k) == BusyAt(n + 1, k) {
      QuietAcquire(s, e, k);
      assert L.At(s, k) == BusyAt(n, k);
    }
  }

  lemma NobodyFilled()
    ensures Filled(L.Run([]), 0)
  {
    forall k ensures L.At(L.Run([]), k) == BusyAt(0, k) {}
  }

  /** The first m events are one request each of m clients, whatever they name as victim. */
  ghost predicate Fills(xs: seq<L.Event>, m: nat) {
    m <= |xs| && forall i :: 0 <= i < m ==> SameRequest(xs[i], FillEvent(i))
  }

  lemma {:induction false} FillFills(xs: seq<L.Event>, m: nat)
    requires Fills(xs, m)
    ensures Filled(L.Run(xs[..m]), m)
  {
    if m == 0 {
      NobodyFilled();
      assert xs[..0] == [];
    } else {
      FillFills(xs, m - 1);
      assert SameRequest(xs[m - 1], FillEvent(m - 1));
      FillMore(L.Run(xs[..m - 1]), xs[m - 1], m - 1);
      RunUpTo(xs, m - 1);
    }
  }

  lemma RunUpTo(xs: seq<L.Event>, m: nat)
    requires m < |xs|
    ensures L.Run(xs[..m + 1]) == L.Step(L.Run(xs[..m]), xs[m])
  {
    assert xs[..m + 1] == xs[..m] + [xs[m]];
    RunMore(xs[..m], xs[m]);
  }

  // ----- one client goes quiet, another drains its bucket much later -----

  const QUIET := Client(0.0, 0.0, 0, 0.0)
  const DRAINED := Client(0.0, LATE, 0, LATE)

  /** Client 0 is long idle, client 1 just now, the rest are in flight. */
  ghost function LateAt(n: nat, k: Key): Rec {
    if k == K(0) then Rec(Some(QUIET), {})
    else if k == K(1) then Rec(Some(DRAINED), {})
    else BusyAt(n, k)
  }

  function LateEvent(n: nat): L.Event { L.Acquire(K(1), n, RULES, LATE, K(0)) }

  /** n clients ask at 0; the first gives its slot back, the second asks again late and gives both
      of its slots back. */
  ghost predicate Prelude(xs: seq<L.Event>, n: nat) {
    && |xs| == n + 4 && Fills(xs, n)
    && xs[n] == L.Release(K(0), 0) && SameRequest(xs[n + 1], LateEvent(n))
    && xs[n + 2] == L.Release(K(1), 1) && xs[n + 3] == L.Release(K(1), n)
  }

  lemma LateRequest(id: nat)
    requires id != 1
    ensures Step(Step(Step(Rec(Some(BUSY), {1}), Acquire(id, RULES, LATE)), Release(1)), Release(id)) == Rec(Some(DRAINED), {})
  {
    var a := Step(Rec(Some(BUSY), {1}), Acquire(id, RULES, LATE));
    assert Refilled(BUSY.(seen := LATE), RULES, LATE) == Client(1.0, LATE, 1, LATE);
    assert a == Rec(Some(Client(0.0, LATE, 2, LATE)), {1, id});
    var b := Step(a, Release(1));
    assert b == Rec(Some(Client(0.0, LATE, 1, LATE)), {id});
  }

  lemma FirstReleased()
    ensures Step(Rec(Some(BUSY), {0}), Release(0)) == Rec(Some(QUIET), {})
  {}

  lemma PreludeRun(xs: seq<L.Event>, n: nat)
    requires Prelude(xs, n)
    ensures var b := L.Step(L.Run(xs[..n]), L.Release(K(0), 0));
            L.Run(xs) == L.Step(L.Step(L.Step(b, xs[n + 1]), L.Release(K(1), 1)), L.Release(K(1), n))
  {
    RunUpTo(xs, n);
    RunUpTo(xs, n + 1);
    RunUpTo(xs, n + 2);
    RunUpTo(xs, n + 3);
    assert xs[..n + 4] == xs;
  }

  lemma PreludeAt(xs: seq<L.Event>, n: nat, k: Key)
    requires n >= 2 && Prelude(xs, n)
    ensures L.At(L.Run(xs), k) == LateAt(n, k)
  {
    FillFills(xs, n);
    PreludeRun(xs, n);
    var a := L.Run(xs[..n]);
    var b := L.Step(a, L.Release(K(0), 0));
    var c := L.Step(b, xs[n + 1]);
    MiddleAt(a, b, c, L.Step(c, L.Release(K(1), 1)), xs[n + 1], n, k);
  }

  lemma MiddleAt(a: L.State, b: L.State, c: L.State, d: L.State, e: L.Event, n: nat, k: Key)
    requires n >= 2 && Filled(a, n) && SameRequest(e, LateEvent(n))
    requires b == L.Step(a, L.Release(K(0), 0)) && c == L.Step(b, e) && d == L.Step(c, L.Release(K(1), 1))
    ensures L.At(L.Step(d, L.Release(K(1), n)), k) == LateAt(n, k)
  {
    assert L.At(a, K(1)) == BusyAt(n, K(1)) && L.At(a, k) == BusyAt(n, k);
    ReleaseAt(a, L.Release(K(0), 0), k);
    ReleaseAt(a, L.Release(K(0), 0), K(1));
    QuietAcquire(b, e, k);
    ReleaseAt(c, L.Release(K(1), 1), k);
    ReleaseAt(d, L.Release(K(1), n), k);
    FirstReleased();
    LateRequest(n);
  }

  lemma PreludeIsLate(xs: seq<L.Event>, n: nat)
    requires n >= 2 && Prelude(xs, n)
    ensures LateState(L.Run(xs), n)
  {
    forall k ensures L.At(L.Run(xs), k) == LateAt(n, k) { PreludeAt(xs, n, k); }
  }

  // ----- with a sweep the newcomer pushes out the wrong one -----

  ghost predicate LateState(s: L.State, n: nat) { forall k :: L.At(s, k) == LateAt(n, k) }

  ghost predicate SweptState(s: L.State, n: nat) {
    forall k :: L.At(s, k) == if k == K(0) then NONE else LateAt(n, k)
  }

  lemma SweepsQuiet(s: L.State, n: nat)
    requires LateState(s, n)
    ensures SweptState(L.Step(s, L.Sweep(LATE)), n)
  {
    forall k ensures L.At(L.Step(s, L.Sweep(LATE)), k) == if k == K(0) then NONE else LateAt(n, k) {
      assert L.At(s, k) == LateAt(n, k);
      assert L.At(L.Step(s, L.Sweep(LATE)), k) == Step(L.At(s, k), Sweep(LATE));
    }
  }

  lemma TableOf(s: L.State, k: Key)
    ensures k in s.table <==> L.At(s, k).client.Some?
    ensures k in s.table ==> s.table[k] == L.At(s, k).client.value
  {}

  ghost predicate OnlyIdle(t: Table, idle: set<Key>) {
    forall k :: k in t ==> (L.Idle(t[k]) <==> k in idle)
  }

  /** v is the one record an eviction can take. */
  ghost predicate OnlyVictim(t: Table, v: Key) {
    AnyIdle(t) && L.OldestIdle(t, v) && forall w :: L.OldestIdle(t, w) ==> w == v
  }

  lemma OldestOf(t: Table, idle: set<Key>, v: Key)
    requires OnlyIdle(t, idle) && v in t && v in idle
    requires forall k :: k in t && k in idle && k != v ==> t[v].seen < t[k].seen
    ensures OnlyVictim(t, v)
  {
    assert L.OldestIdle(t, v);
    forall k | L.OldestIdle(t, k) ensures k == v {
      assert L.Idle(t[v]);
    }
  }

  lemma AllButFirst(n: nat)
    requires n > 0
    ensures |Keys(n) - {K(0)}| == n - 1
  {
    assert K(0) in Keys(n);
  }

  lemma SweptKeys(s: L.State, n: nat)
    requires n >= 2 && SweptState(s, n)
    ensures s.table.Keys == Keys(n) - {K(0)} && |s.table| == n - 1
  {
    AllButFirst(n);
    forall k ensures k in s.table.Keys <==> k in Keys(n) - {K(0)} {
      TableOf(s, k);
      assert L.At(s, k) == if k == K(0) then NONE else LateAt(n, k);
    }
    assert |s.table| == |s.table.Keys|;
  }

  lemma SweptFacts(s: L.State, n: nat)
    requires n >= 2 && SweptState(s, n)
    ensures |s.table| == n - 1 && K(n) !in s.table && OnlyVictim(s.table, K(1))
  {
    SweptKeys(s, n);
    forall k | k in s.table ensures L.Idle(s.table[k]) <==> k in {K(1)} {
      assert L.At(s, k) == if k == K(0) then NONE else LateAt(n, k);
    }
    OldestOf(s.table, {K(1)}, K(1));
  }

  lemma LateKeys(s: L.State, n: nat)
    requires n >= 2 && LateState(s, n)
    ensures s.table.Keys == Keys(n) && |s.table| == n
  {
    forall k ensures k in s.table.Keys <==> k in Keys(n) {
      TableOf(s, k);
      assert L.At(s, k) == LateAt(n, k);
    }
    assert |s.table| == |s.table.Keys|;
  }

  lemma LateFacts(s: L.State, n: nat)
    requires n >= 2 && LateState(s, n)
    ensures |s.table| == n && K(n) !in s.table && OnlyVictim(s.table, K(0))
  {
    LateKeys(s, n);
    forall k | k in s.table ensures L.Idle(s.table[k]) <==> k in {K(0), K(1)} {
      assert L.At(s, k) == LateAt(n, k);
    }
    assert L.At(s, K(0)) == LateAt(n, K(0)) && L.At(s, K(1)) == LateAt(n, K(1));
    OldestOf(s.table, {K(0), K(1)}, K(0));
  }

  /** What the newcomer's arrival leaves of client j. */
  lemma NewcomerAt(s: L.State, n: nat, e: L.Event, j: nat)
    requires e.Acquire? && e.k == K(n) && j < n && L.Choosable(s.table, e.k, e.victim) && Evicts(s.table, e.k)
    ensures L.At(L.Step(s, e), K(j)) == if e.victim == K(j) then Gone(L.At(s, K(j))) else L.At(s, K(j))
  {
    StepIsJudge(s, e);
    RoomedAt(s, e.k, e.victim, K(j));
    var r := Roomed(s, e.k, e.victim);
    L.PutAt(r, e.k, Step(L.At(r, e.k), Acquire(e.id, e.rules, e.now)), K(j));
  }

  lemma Verdicts(open: set<nat>)
    ensures Answer(Rec(None, open), RULES, LATE).Admitted?
    ensures Answer(Rec(Some(DRAINED), open), RULES, LATE).TooFast?
  {}

  predicate Newcomer(e: L.Event, n: nat) {
    e.Acquire? && e.k == K(n) && e.rules == RULES && e.now == LATE && e.id == n + 1
  }

  lemma SweptAdmits(s: L.State, n: nat, e: L.Event)
    requires n == CAP + 1 && SweptState(s, n) && Newcomer(e, n) && L.Choosable(s.table, e.k, e.victim)
    ensures Answer(L.At(L.Step(s, e), K(1)), RULES, LATE).Admitted?
    ensures L.At(L.Step(s, e), K(0)).open == {}
  {
    SweptFacts(s, n);
    NewcomerAt(s, n, e, 1);
    NewcomerAt(s, n, e, 0);
    assert L.At(s, K(0)) == NONE;
    Verdicts(L.At(s, K(1)).open);
  }

  lemma UnsweptRefuses(s: L.State, n: nat, e: L.Event)
    requires n == CAP + 1 && LateState(s, n) && Newcomer(e, n) && L.Choosable(s.table, e.k, e.victim)
    ensures Answer(L.At(L.Step(s, e), K(1)), RULES, LATE).TooFast?
  {
    LateFacts(s, n);
    NewcomerAt(s, n, e, 1);
    assert L.At(s, K(1)) == LateAt(n, K(1));
    Verdicts({});
  }

  // ----- the run is an orderly one -----

  /** Steady and well chosen so far, with ids below `id` and the clock at t. */
  ghost predicate Good(es: seq<L.Event>, rulesOf: RulesOf, id: nat, t: real) {
    && L.Steady(es, rulesOf) && Chosen(es)
    && (forall i :: 0 <= i < |es| && es[i].Acquire? ==> es[i].id < id)
    && (forall i :: 0 <= i < |es| && L.Clocked(es[i]) ==> es[i].now <= t)
  }

  lemma SteadyMore(es: seq<L.Event>, e: L.Event, rulesOf: RulesOf, t: real)
    requires L.Steady(es, rulesOf) && (e.Acquire? ==> e.rules == rulesOf(e.k.host)) && (L.Clocked(e) ==> t <= e.now)
    requires forall i :: 0 <= i < |es| && es[i].Acquire? && e.Acquire? ==> es[i].id < e.id
    requires forall i :: 0 <= i < |es| && L.Clocked(es[i]) ==> es[i].now <= t
    ensures L.Steady(es + [e], rulesOf)
  {}

  lemma GoodMore(es: seq<L.Event>, e: L.Event, rulesOf: RulesOf, id: nat, t: real)
    requires Good(es, rulesOf, id, t)
    requires e.Acquire? ==> e.rules == rulesOf(e.k.host) && e.id == id && L.Choosable(L.Run(es).table, e.k, e.victim)
    requires L.Clocked(e) ==> t <= e.now
    ensures Good(es + [e], rulesOf, if e.Acquire? then id + 1 else id, if L.Clocked(e) then e.now else t)
  {
    ChosenMore(es, e);
    SteadyMore(es, e, rulesOf, t);
  }

  /** The first m events are good so far. */
  ghost predicate GoodAt(xs: seq<L.Event>, m: nat, rulesOf: RulesOf, id: nat, t: real)
    requires m <= |xs|
  {
    exists upTo :: upTo == xs[..m] && Good(upTo, rulesOf, id, t)
  }

  lemma GoodUpTo(xs: seq<L.Event>, m: nat, rulesOf: RulesOf, id: nat, t: real)
    requires m < |xs| && GoodAt(xs, m, rulesOf, id, t)
    requires xs[m].Acquire? ==> xs[m].rules == rulesOf(xs[m].k.host) && xs[m].id == id
    requires xs[m].Acquire? ==> L.Choosable(L.Run(xs[..m]).table, xs[m].k, xs[m].victim)
    requires L.Clocked(xs[m]) ==> t <= xs[m].now
    ensures GoodAt(xs, m + 1, rulesOf, if xs[m].Acquire? then id + 1 else id, if L.Clocked(xs[m]) then xs[m].now else t)
  {
    assert xs[..m + 1] == xs[..m] + [xs[m]];
    GoodMore(xs[..m], xs[m], rulesOf, id, t);
  }

  lemma {:induction false} FillGood(xs: seq<L.Event>, m: nat, rulesOf: RulesOf)
    requires Fills(xs, m) && forall h :: rulesOf(h) == RULES
    ensures GoodAt(xs, m, rulesOf, m, 0.0)
  {
    if m == 0 {
      GoodEmpty(rulesOf);
      assert xs[..0] == [];
    } else {
      FillGood(xs, m - 1, rulesOf);
      FillGoodMore(xs, m - 1, rulesOf);
    }
  }

  lemma FillGoodMore(xs: seq<L.Event>, m: nat, rulesOf: RulesOf)
    requires Fills(xs, m + 1) && (forall h :: rulesOf(h) == RULES) && GoodAt(xs, m, rulesOf, m, 0.0)
    ensures GoodAt(xs, m + 1, rulesOf, m + 1, 0.0)
  {
    var e := xs[m];
    assert SameRequest(e, FillEvent(m));
    FillChooses(xs, m, e.k, e.victim);
    GoodUpTo(xs, m, rulesOf, m, 0.0);
  }

  lemma FillChooses(xs: seq<L.Event>, m: nat, k: Key, v: Key)
    requires Fills(xs, m) && m < |xs|
    ensures L.Choosable(L.Run(xs[..m]).table, k, v)
  {
    FillFills(xs, m);
    NoneIdle(L.Run(xs[..m]), m);
  }

  lemma GoodEmpty(rulesOf: RulesOf)
    ensures Good([], rulesOf, 0, 0.0)
  {}

  lemma PreludeGood(xs: seq<L.Event>, n: nat, rulesOf: RulesOf)
    requires n >= 2 && Prelude(xs, n) && forall h :: rulesOf(h) == RULES
    ensures Good(xs, rulesOf, n + 1, LATE)
  {
    FillGood(xs, n, rulesOf);
    SecondThere(xs, n);
    GoodFromFill(xs, n, rulesOf);
  }

  lemma GoodFromFill(xs: seq<L.Event>, n: nat, rulesOf: RulesOf)
    requires |xs| == n + 4 && xs[n].Release? && SameRequest(xs[n + 1], LateEvent(n)) && xs[n + 2].Release? && xs[n + 3].Release?
    requires (forall h :: rulesOf(h) == RULES) && GoodAt(xs, n, rulesOf, n, 0.0) && K(1) in L.Run(xs[..n + 1]).table
    ensures Good(xs, rulesOf, n + 1, LATE)
  {
    GoodUpTo(xs, n, rulesOf, n, 0.0);
    GoodLate(xs, n + 1, rulesOf, n);
    GoodToEnd(xs, n, rulesOf);
  }

  lemma GoodLate(xs: seq<L.Event>, m: nat, rulesOf: RulesOf, id: nat)
    requires m < |xs| && SameRequest(xs[m], LateEvent(id)) && (forall h :: rulesOf(h) == RULES)
    requires GoodAt(xs, m, rulesOf, id, 0.0) && K(1) in L.Run(xs[..m]).table
    ensures GoodAt(xs, m + 1, rulesOf, id + 1, LATE)
  {
    GoodUpTo(xs, m, rulesOf, id, 0.0);
  }

  lemma GoodToEnd(xs: seq<L.Event>, n: nat, rulesOf: RulesOf)
    requires |xs| == n + 4 && xs[n + 2].Release? && xs[n + 3].Release? && GoodAt(xs, n + 2, rulesOf, n + 1, LATE)
    ensures Good(xs, rulesOf, n + 1, LATE)
  {
    GoodUpTo(xs, n + 2, rulesOf, n + 1, LATE);
    GoodUpTo(xs, n + 3, rulesOf, n + 1, LATE);
    assert xs[..n + 4] == xs;
  }

  lemma SecondThere(xs: seq<L.Event>, n: nat)
    requires n >= 2 && Prelude(xs, n)
    ensures K(1) in L.Run(xs[..n + 1]).table
  {
    FillFills(xs, n);
    RunUpTo(xs, n);
    SecondKept(L.Run(xs[..n]), n);
  }

  lemma SecondKept(s: L.State, n: nat)
    requires n >= 2 && Filled(s, n)
    ensures K(1) in L.Step(s, L.Release(K(0), 0)).table
  {
    ReleaseAt(s, L.Release(K(0), 0), K(1));
    assert L.At(s, K(1)) == BusyAt(n, K(1));
    TableOf(L.Step(s, L.Release(K(0), 0)), K(1));
  }

  // ----- how many clients it has in flight -----

  ghost predicate AsksFrom(es: seq<L.Event>, keys: set<Key>) {
    forall i :: 0 <= i < |es| && es[i].Acquire? ==> es[i].k in keys
  }

  lemma {:induction false} InFlightAsked(es: seq<L.Event>, keys: set<Key>)
    requires AsksFrom(es, keys)
    ensures InFlight(L.Run(es)) <= keys
  {
    if es != [] {
      var init, e := es[..|es| - 1], es[|es| - 1];
      InFlightAsked(init, keys);
      InFlightNext(L.Run(init), e);
    }
  }

  lemma InFlightNext(s: L.State, e: L.Event)
    ensures InFlight(L.Step(s, e)) <= InFlight(s) + if e.Acquire? then {e.k} else {}
  {}

  lemma PreludeAsks(xs: seq<L.Event>, n: nat)
    requires n >= 2 && Prelude(xs, n)
    ensures AsksFrom(xs, Keys(n))
  {
    forall i | 0 <= i < |xs| && xs[i].Acquire? ensures xs[i].k in Keys(n) { PreludeKey(xs, n, i); }
  }

  lemma PreludeKey(xs: seq<L.Event>, n: nat, i: nat)
    requires n >= 2 && Prelude(xs, n) && i < |xs|
    ensures !xs[i].Sweep? && (xs[i].Acquire? ==> xs[i].k.host == 0 && xs[i].k.addr < n)
  {
    if i < n {
      assert SameRequest(xs[i], FillEvent(i));
    } else {
      assert i == n || i == n + 1 || i == n + 2 || i == n + 3;
    }
  }

  /** No point of the run has more clients in flight than n. */
  lemma AtMostAsked(es: seq<L.Event>, n: nat)
    requires AsksFrom(es, Keys(n))
    ensures AtMost(es, n)
  {
    forall i | 0 <= i <= |es| ensures |InFlight(L.Run(es[..i]))| <= n {
      InFlightAsked(es[..i], Keys(n));
      L.CardMono(InFlight(L.Run(es[..i])), Keys(n));
    }
  }

  lemma AtMostMore(es: seq<L.Event>, e: L.Event, n: nat)
    requires AtMost(es, n) && |InFlight(L.Run(es + [e]))| <= n
    ensures AtMost(es + [e], n)
  {
    var all := es + [e];
    forall i | 0 <= i <= |all| ensures |InFlight(L.Run(all[..i]))| <= n {
      if i <= |es| { assert all[..i] == es[..i]; } else { assert all[..i] == all; }
    }
  }

  /** With the first client done, one more leaves n in flight. */
  lemma OneMoreInFlight(es: seq<L.Event>, n: nat)
    requires n > 0 && AsksFrom(es, Keys(n + 1)) && L.At(L.Run(es), K(0)).open == {}
    ensures |InFlight(L.Run(es))| <= n
  {
    InFlightAsked(es, Keys(n + 1));
    AllButFirst(n + 1);
    var busy := InFlight(L.Run(es));
    assert busy <= Keys(n + 1) - {K(0)};
    L.CardMono(busy, Keys(n + 1) - {K(0)});
  }

  // ----- the whole run -----

  /** The prelude, with some victims named. */
  lemma SomePrelude(n: nat) returns (xs: seq<L.Event>)
    requires n >= 2
    ensures Prelude(xs, n)
  {
    var fill := seq(n, (i: int) requires 0 <= i < n => FillEvent(i));
    xs := fill + [L.Release(K(0), 0), LateEvent(n), L.Release(K(1), 1), L.Release(K(1), n)];
    forall i | 0 <= i < n ensures SameRequest(xs[i], FillEvent(i)) {
      assert xs[i] == fill[i];
    }
  }

  ghost predicate NoSweep(es: seq<L.Event>) {
    forall i :: 0 <= i < |es| ==> !es[i].Sweep?
  }

  lemma {:induction false} NothingToSweep(es: seq<L.Event>)
    requires NoSweep(es)
    ensures L.WithoutSweeps(es) == es
  {
    if es != [] {
      NothingToSweep(es[..|es| - 1]);
      SplitLast(es);
    }
  }

  lemma WithoutMore(es: seq<L.Event>, e: L.Event)
    ensures L.WithoutSweeps(es + [e]) == L.WithoutSweeps(es) + if e.Sweep? then [] else [e]
  {
    assert (es + [e])[..|es|] == es;
  }

  /** The prelude, a sweep, the newcomer, and the second client again. */
  ghost predicate Overflow(es: seq<L.Event>, xs: seq<L.Event>, n: nat, e: L.Event, g: L.Event) {
    && Prelude(xs, n) && es == xs + [L.Sweep(LATE)] + [e] + [g]
    && Newcomer(e, n) && g.Acquire? && g.k == K(1) && g.rules == RULES && g.now == LATE && g.id == n + 2
  }

  lemma OverflowWithout(es: seq<L.Event>, xs: seq<L.Event>, n: nat, e: L.Event, g: L.Event)
    requires n >= 2 && Overflow(es, xs, n, e, g)
    ensures L.WithoutSweeps(es) == xs + [e] + [g]
  {
    assert NoSweep(xs) by {
      forall i | 0 <= i < |xs| ensures !xs[i].Sweep? { PreludeKey(xs, n, i); }
    }
    NothingToSweep(xs);
    WithoutMore(xs, L.Sweep(LATE));
    WithoutMore(xs + [L.Sweep(LATE)], e);
    WithoutMore(xs + [L.Sweep(LATE)] + [e], g);
  }

  /** Any run of the same requests without sweeps refuses the second client in the end. */
  lemma RerunRefuses(us: seq<L.Event>, xs: seq<L.Event>, n: nat, e: L.Event, g: L.Event)
    requires n == CAP + 1 && Prelude(xs, n) && Newcomer(e, n) && g.Acquire? && g.k == K(1) && g.rules == RULES && g.now == LATE
    requires Chosen(us) && |us| == n + 6
    requires forall i :: 0 <= i < n + 6 ==> SameRequest(us[i], (xs + [e] + [g])[i])
    ensures us != [] && us[n + 5].Acquire? && us[n + 5].k == K(1) && us[n + 5].rules == RULES && us[n + 5].now == LATE
    ensures Answer(L.At(L.Run(us[..n + 5]), K(1)), RULES, LATE).TooFast?
  {
    var w := xs + [e] + [g];
    var ys := us[..n + 4];
    forall i | 0 <= i < n + 4 ensures SameRequest(ys[i], xs[i]) { assert w[i] == xs[i] && SameRequest(us[i], w[i]); }
    PreludeLike(xs, ys, n);
    PreludeIsLate(ys, n);
    assert SameRequest(us[n + 4], w[n + 4]) && w[n + 4] == e;
    assert SameRequest(us[n + 5], w[n + 5]) && w[n + 5] == g;
    assert ChosenAt(us, n + 4);
    UnsweptRefuses(L.Run(ys), n, us[n + 4]);
    RunUpTo(us, n + 4);
  }

  lemma PreludeLike(xs: seq<L.Event>, ys: seq<L.Event>, n: nat)
    requires Prelude(xs, n) && |ys| == |xs| && forall i :: 0 <= i < |ys| ==> SameRequest(ys[i], xs[i])
    ensures Prelude(ys, n)
  {
    forall i | 0 <= i < n ensures SameRequest(ys[i], FillEvent(i)) {
      assert SameRequest(ys[i], xs[i]) && SameRequest(xs[i], FillEvent(i));
    }
    assert SameRequest(ys[n], xs[n]) && SameRequest(ys[n + 1], xs[n + 1]);
    assert SameRequest(ys[n + 2], xs[n + 2]) && SameRequest(ys[n + 3], xs[n + 3]);
  }

  lemma LastVerdict(es: seq<L.Event>, k: Key)
    requires es != [] && es[|es| - 1].Acquire? && es[|es| - 1].k == k
    ensures var g, init := es[|es| - 1], es[..|es| - 1];
            var vs := L.AnswersTo(es, k);
            vs != [] && vs[|vs| - 1] == Answer(L.At(L.Run(init), k), g.rules, g.now)
  {
    var g, init := es[|es| - 1], es[..|es| - 1];
    SplitLast(es);
    AnswersMore(init, g, k);
  }

  lemma RerunDiffers(es: seq<L.Event>, us: seq<L.Event>, xs: seq<L.Event>, n: nat, e: L.Event, g: L.Event)
    requires n == CAP + 1 && Overflow(es, xs, n, e, g) && Rerun(es, us)
    ensures var vs := L.AnswersTo(us, K(1)); vs != [] && vs[|vs| - 1].TooFast?
  {
    OverflowWithout(es, xs, n, e, g);
    RerunRefuses(us, xs, n, e, g);
    assert us[..|us| - 1] == us[..n + 5];
    LastVerdict(us, K(1));
  }

  lemma OverflowAdmits(es: seq<L.Event>, xs: seq<L.Event>, n: nat, e: L.Event, g: L.Event)
    requires n == CAP + 1 && Overflow(es, xs, n, e, g) && L.Choosable(L.Run(xs + [L.Sweep(LATE)]).table, e.k, e.victim)
    ensures var vs := L.AnswersTo(es, K(1)); vs != [] && vs[|vs| - 1].Admitted?
  {
    var s := xs + [L.Sweep(LATE)];
    SweptIs(xs, n);
    SweptAdmits(L.Run(s), n, e);
    RunMore(s, e);
    assert es[..|es| - 1] == s + [e];
    LastVerdict(es, K(1));
  }

  lemma OverflowShows(es: seq<L.Event>, xs: seq<L.Event>, n: nat, e: L.Event, g: L.Event)
    requires n == CAP + 1 && Overflow(es, xs, n, e, g) && L.Choosable(L.Run(xs + [L.Sweep(LATE)]).table, e.k, e.victim)
    ensures !Invisible(es)
  {
    OverflowAdmits(es, xs, n, e, g);
    forall us | Rerun(es, us) ensures !SameAnswers(es, us) {
      RerunDiffers(es, us, xs, n, e, g);
      assert L.AnswersTo(es, K(1)) != L.AnswersTo(us, K(1));
    }
  }

  lemma SweptIs(xs: seq<L.Event>, n: nat)
    requires n >= 2 && Prelude(xs, n)
    ensures SweptState(L.Run(xs + [L.Sweep(LATE)]), n)
  {
    PreludeIsLate(xs, n);
    RunMore(xs, L.Sweep(LATE));
    SweepsQuiet(L.Run(xs), n);
  }

  lemma ChooseNewcomer(s: L.State, n: nat, e: L.Event)
    requires n == CAP + 1 && SweptState(s, n) && Newcomer(e, n) && e.victim == K(1)
    ensures L.Choosable(s.table, e.k, e.victim)
  {
    SweptFacts(s, n);
  }

  lemma OverflowIsOrderly(xs: seq<L.Event>, n: nat, e: L.Event, g: L.Event, rulesOf: RulesOf)
    requires n == CAP + 1 && Prelude(xs, n) && Newcomer(e, n) && (forall h :: rulesOf(h) == RULES)
    requires g.Acquire? && g.k == K(1) && g.rules == RULES && g.now == LATE && g.id == n + 2
    requires L.Choosable(L.Run(xs + [L.Sweep(LATE)]).table, e.k, e.victim)
    requires L.Choosable(L.Run(xs + [L.Sweep(LATE)] + [e]).table, g.k, g.victim)
    ensures Orderly(xs + [L.Sweep(LATE)] + [e] + [g], rulesOf)
  {
    PreludeGood(xs, n, rulesOf);
    GoodMore(xs, L.Sweep(LATE), rulesOf, n + 1, LATE);
    GoodMore(xs + [L.Sweep(LATE)], e, rulesOf, n + 1, LATE);
    GoodMore(xs + [L.Sweep(LATE)] + [e], g, rulesOf, n + 2, LATE);
  }

  lemma AsksMore(es: seq<L.Event>, e: L.Event, keys: set<Key>)
    requires AsksFrom(es, keys) && (e.Acquire? ==> e.k in keys)
    ensures AsksFrom(es + [e], keys)
  {}

  lemma OverflowPeak(xs: seq<L.Event>, n: nat, e: L.Event, g: L.Event)
    requires n == CAP + 1 && Prelude(xs, n) && Newcomer(e, n) && g.Acquire? && g.k == K(1)
    requires L.Choosable(L.Run(xs + [L.Sweep(LATE)]).table, e.k, e.victim)
    ensures AtMost(xs + [L.Sweep(LATE)] + [e] + [g], n)
  {
    var a := xs + [L.Sweep(LATE)];
    var b := a + [e];
    PreludeAsks(xs, n);
    AsksMore(xs, L.Sweep(LATE), Keys(n));
    AtMostAsked(a, n);
    assert AsksFrom(a, Keys(n + 1)) by { assert Keys(n) <= Keys(n + 1); }
    AsksMore(a, e, Keys(n + 1));
    AsksMore(b, g, Keys(n + 1));
    SweptIs(xs, n);
    SweptAdmits(L.Run(a), n, e);
    RunMore(a, e);
    OneMoreInFlight(b, n);
    AtMostMore(a, e, n);
    RunMore(b, g);
    FirstUntouched(L.Run(b), g);
    OneMoreInFlight(b + [g], n);
    AtMostMore(b, g, n);
  }

  lemma FirstUntouched(s: L.State, g: L.Event)
    requires g.Acquire? && g.k == K(1)
    ensures L.At(L.Step(s, g), K(0)).open == L.At(s, K(0)).open
  {
    var r := Roomed(s, g.k, g.victim);
    StepIsJudge(s, g);
    L.PutAt(r, g.k, Step(L.At(r, g.k), Acquire(g.id, g.rules, g.now)), K(0));
  }

  /** With one client more in flight than the shard holds records, an orderly run shows its sweep: no
      run of the same requests without it answers alike. */
  lemma OverflowSeesSweep(rulesOf: RulesOf) returns (es: seq<L.Event>)
    requires forall h :: rulesOf(h) == RULES
    ensures Orderly(es, rulesOf) && AtMost(es, CAP + 1) && !Invisible(es)
  {
    var n := CAP + 1;
    var xs := SomePrelude(n);
    var e := L.Acquire(K(n), n + 1, RULES, LATE, K(1));
    SweptIs(xs, n);
    ChooseNewcomer(L.Run(xs + [L.Sweep(LATE)]), n, e);
    var v := SomeChoice(L.Run(xs + [L.Sweep(LATE)] + [e]).table, K(1));
    var g := L.Acquire(K(1), n + 2, RULES, LATE, v);
    es := xs + [L.Sweep(LATE)] + [e] + [g];
    OverflowIsOrderly(xs, n, e, g, rulesOf);
    OverflowPeak(xs, n, e, g);
    OverflowShows(es, xs, n, e, g);
  }

  // ----- exactly how many clients in flight sweeping stands -----

  /** Sweeps show in no orderly run with at most n clients in flight at once. */
  ghost predicate InvisibleUpTo(n: nat) {
    forall es, rulesOf :: Orderly(es, rulesOf) && AtMost(es, n) ==> Invisible(es)
  }

  lemma AtMostWeakens(es: seq<L.Event>, m: nat, n: nat)
    requires AtMost(es, m) && m <= n
    ensures AtMost(es, n)
  {}

  /** Sweeps are invisible to all orderly runs of at most n clients in flight at once exactly when
      the shard has room for n. */
  lemma SweepsInvisibleUpToExactly(n: nat)
    ensures InvisibleUpTo(n) <==> n <= L.MAX_PER_SHARD
  {
    if n <= L.MAX_PER_SHARD {
      forall es, rulesOf | Orderly(es, rulesOf) && AtMost(es, n) ensures Invisible(es) {
        AtMostWeakens(es, n, L.MAX_PER_SHARD);
        FewInFlightFits(es);
        ShardSweepsInvisible(es, rulesOf);
      }
    } else {
      var rulesOf: RulesOf := _ => RULES;
      var es := OverflowSeesSweep(rulesOf);
      AtMostWeakens(es, CAP + 1, n);
    }
  }
}

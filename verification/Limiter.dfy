/** One shard of the traffic limiter: a table of client records, kept bounded by dropping
    idle ones, and what its runs mean for each client on its own.
 */
module Limiter {
  import opened Basics
  import opened LimiterRecord
  import Sw = LimiterSweep

  datatype Key = Key(host: int, addr: nat)

  type Table = map<Key, Client>

  const MAX_PER_SHARD: nat := 16384

  predicate Idle(c: Client) { c.active <= 0 }

  /** k is an idle record no idle record was seen before. */
  ghost predicate OldestIdle(t: Table, k: Key) {
    k in t && Idle(t[k]) && forall j :: j in t && Idle(t[j]) ==> t[k].seen <= t[j].seen
  }

  predicate Expired(c: Client, now: real) { c.active == 0 && c.seen < now - IDLE_AFTER }

  function Swept(t: Table, now: real): (r: Table)
    ensures forall k :: k in r <==> k in t && !Expired(t[k], now)
    ensures forall k :: k in r ==> r[k] == t[k]
  {
    map k | k in t && !Expired(t[k], now) :: t[k]
  }

  function WithoutHost(t: Table, host: int): (r: Table)
    ensures forall k :: k in r <==> k in t && k.host != host
    ensures forall k :: k in r ==> r[k] == t[k]
  {
    map k | k in t && k.host != host :: t[k]
  }

  /** The table a new client finds: one record short when it was full and something was idle. */
  ghost function Roomier(t: Table, k: Key, victim: Key): Table {
    if k !in t && |t| >= MAX_PER_SHARD && OldestIdle(t, victim) then t - {victim} else t
  }

  /** The choice of victim is one the scan could make. */
  ghost predicate Choosable(t: Table, k: Key, victim: Key) {
    k !in t && |t| >= MAX_PER_SHARD && (exists j :: j in t && Idle(t[j])) ==> OldestIdle(t, victim)
  }

  function ClientOf(t: Table, k: Key, rules: Rules, now: real): Client {
    if k in t then t[k].(seen := now) else Client(BurstOf(rules) as real, now, 0, now)
  }

  // ----- the shard as the proxy runs it -----

  class Slot {
    const key: Key
    var given: bool

    constructor (k: Key)
      ensures key == k && !given
    {
      key, given := k, false;
    }
  }

  class Shard {
    var clients: Table

    constructor ()
      ensures clients == map[]
    {
      clients := map[];
    }

    /** Scans the table in any order for the idle record seen longest ago. */
    method EvictOldest() returns (ghost victim: Key)
      modifies this
      ensures if exists k :: k in old(clients) && Idle(old(clients)[k])
              then OldestIdle(old(clients), victim) && clients == old(clients) - {victim}
              else clients == old(clients)
    {
      var keys := clients.Keys;
      var found: Option<Key> := None;
      victim := Key(0, 0);
      while keys != {}
        invariant keys <= clients.Keys && clients == old(clients)
        invariant found.None? ==> forall k :: k in clients && k !in keys ==> !Idle(clients[k])
        invariant found.Some? ==> found.value in clients && Idle(clients[found.value])
        invariant found.Some? ==> forall k :: k in clients && k !in keys && Idle(clients[k]) ==>
                    clients[found.value].seen <= clients[k].seen
        decreases |keys|
      {
        var k :| k in keys;
        keys := keys - {k};
        if Idle(clients[k]) && (found.None? || clients[k].seen < clients[found.value].seen) {
          found := Some(k);
        }
      }
      if found.Some? {
        victim := found.value;
        clients := clients - {found.value};
      }
    }

    /** Judges one request of a known address; one with no address is let through unrecorded. */
    method Acquire(host: int, addr: Option<nat>, rules: Rules, now: real)
      returns (v: Verdict, slot: Slot?, ghost victim: Key)
      modifies this
      ensures addr.None? ==> v == Admitted && slot == null && clients == old(clients)
      ensures addr.Some? ==>
                var k := Key(host, addr.value);
                var t := Roomier(old(clients), k, victim);
                var (c, w) := Judged(ClientOf(t, k, rules, now), rules, now);
                && Choosable(old(clients), k, victim) && v == w
                && clients == t[k := if w.Admitted? then c.(active := c.active + 1) else c]
      ensures addr.Some? && v.Admitted? ==> slot != null && fresh(slot) && slot.key == Key(host, addr.value) && !slot.given
      ensures !v.Admitted? ==> slot == null
    {
      slot, victim := null, Key(0, 0);
      if addr.None? { return Admitted, slot, victim; }
      var k := Key(host, addr.value);
      if k !in clients && |clients| >= MAX_PER_SHARD {
        victim := EvictOldest();
      }
      var c := ClientOf(clients, k, rules, now);
      var (d, w) := Judged(c, rules, now);
      v := w;
      if !v.Admitted? {
        clients := clients[k := d];
        return;
      }
      clients := clients[k := d.(active := d.active + 1)];
      slot := new Slot(k);
    }

    /** Gives a slot back, the first time only. */
    method Release(slot: Slot)
      modifies this, slot
      ensures slot.given
      ensures clients ==
              var k := slot.key;
              if old(slot.given) || k !in old(clients) || old(clients)[k].active <= 0 then old(clients)
              else old(clients)[k := old(clients)[k].(active := old(clients)[k].active - 1)]
    {
      if slot.given { return; }
      slot.given := true;
      var k := slot.key;
      if k in clients && clients[k].active > 0 {
        clients := clients[k := clients[k].(active := clients[k].active - 1)];
      }
    }

    method SweepOnce(now: real)
      modifies this
      ensures clients == Swept(old(clients), now)
      ensures forall k :: k in clients <==>
                k in old(clients) && (old(clients)[k].active != 0 || old(clients)[k].seen >= now - 600.0)
    {
      var keys := clients.Keys;
      while keys != {}
        invariant keys <= clients.Keys <= old(clients).Keys
        invariant forall k :: k in clients ==> clients[k] == old(clients)[k]
        invariant forall k :: k in old(clients) ==> (k in clients <==> k in keys || !Expired(old(clients)[k], now))
        decreases |keys|
      {
        var k :| k in keys;
        keys := keys - {k};
        if Expired(clients[k], now) {
          clients := clients - {k};
        }
      }
    }

    method Forget(host: int)
      modifies this
      ensures clients == WithoutHost(old(clients), host)
    {
      var keys := clients.Keys;
      while keys != {}
        invariant keys <= clients.Keys <= old(clients).Keys
        invariant forall k :: k in clients ==> clients[k] == old(clients)[k]
        invariant forall k :: k in old(clients) ==> (k in clients <==> k in keys || k.host != host)
        decreases |keys|
      {
        var k :| k in keys;
        keys := keys - {k};
        if k.host == host {
          clients := clients - {k};
        }
      }
    }
  }

  // ----- runs of the whole shard -----

  /** The table and, per client, the ids of admitted requests not yet released. */
  datatype State = State(table: Table, open: map<Key, set<nat>>)

  datatype Event =
    | Acquire(k: Key, id: nat, rules: Rules, now: real, victim: Key)
    | Release(k: Key, id: nat)
    | Sweep(now: real)
    | Forget(host: int)

  function At(s: State, k: Key): Rec {
    Rec(if k in s.table then Some(s.table[k]) else None, if k in s.open then s.open[k] else {})
  }

  function Put(s: State, k: Key, r: Rec): State {
    State(if r.client.Some? then s.table[k := r.client.value] else s.table - {k}, s.open[k := r.open])
  }

  ghost function Step(s: State, e: Event): State {
    match e
    case Acquire(k, id, rules, now, victim) =>
      var t := s.(table := Roomier(s.table, k, victim));
      Put(t, k, LimiterRecord.Step(At(t, k), LimiterRecord.Acquire(id, rules, now)))
    case Release(k, id) => Put(s, k, LimiterRecord.Step(At(s, k), LimiterRecord.Release(id)))
    case Sweep(now) => s.(table := Swept(s.table, now))
    case Forget(host) => s.(table := WithoutHost(s.table, host))
  }

  ghost function Run(es: seq<Event>): State {
    if es == [] then State(map[], map[]) else Step(Run(es[..|es| - 1]), es[|es| - 1])
  }

  lemma TouchedIsClientOf(s: State, k: Key, rules: Rules, now: real)
    ensures Touched(At(s, k), rules, now) == ClientOf(s.table, k, rules, now)
  {}

  /** The table step is the one the shard's Acquire takes. */
  lemma StepIsAcquire(s: State, k: Key, id: nat, rules: Rules, now: real, victim: Key)
    ensures var t := Roomier(s.table, k, victim);
            var (c, w) := Judged(ClientOf(t, k, rules, now), rules, now);
            Step(s, Event.Acquire(k, id, rules, now, victim)).table == t[k := if w.Admitted? then c.(active := c.active + 1) else c]
  {
    var u := s.(table := Roomier(s.table, k, victim));
    TouchedIsClientOf(u, k, rules, now);
    var (c, w) := Judged(ClientOf(u.table, k, rules, now), rules, now);
    assert LimiterRecord.Step(At(u, k), LimiterRecord.Acquire(id, rules, now)).client
        == Some(if w.Admitted? then c.(active := c.active + 1) else c);
  }

  /** What event e, in state s, is to the client k. */
  ghost function Seen(s: State, e: Event, k: Key): seq<LimiterRecord.Event> {
    match e
    case Acquire(j, id, rules, now, victim) =>
      if j == k then [LimiterRecord.Acquire(id, rules, now)]
      else if k in s.table && k !in Roomier(s.table, j, victim) then [LimiterRecord.Evict]
      else []
    case Release(j, id) => if j == k then [LimiterRecord.Release(id)] else []
    case Sweep(now) => [LimiterRecord.Sweep(now)]
    case Forget(host) => if k.host == host then [LimiterRecord.Forget] else []
  }

  ghost function Trace(es: seq<Event>, k: Key): seq<LimiterRecord.Event> {
    if es == [] then []
    else Trace(es[..|es| - 1], k) + Seen(Run(es[..|es| - 1]), es[|es| - 1], k)
  }

  lemma RunOne(r: Rec, e: LimiterRecord.Event)
    ensures LimiterRecord.Run(r, [e]) == LimiterRecord.Step(r, e)
  {
    assert [e][..0] == [];
  }

  lemma PutAt(s: State, j: Key, r: Rec, k: Key)
    ensures At(Put(s, j, r), k) == if j == k then r else At(s, k)
  {}

  lemma AcquireAt(s: State, e: Event, k: Key)
    requires e.Acquire? && (k in s.table ==> s.table[k].active >= 0)
    ensures At(Step(s, e), k) == LimiterRecord.Run(At(s, k), Seen(s, e, k))
  {
    var t := s.(table := Roomier(s.table, e.k, e.victim));
    var r := LimiterRecord.Step(At(t, e.k), LimiterRecord.Acquire(e.id, e.rules, e.now));
    PutAt(t, e.k, r, k);
    if e.k == k {
      assert At(t, k) == At(s, k);
      RunOne(At(s, k), LimiterRecord.Acquire(e.id, e.rules, e.now));
    } else if k in s.table && k !in t.table {
      RunOne(At(s, k), LimiterRecord.Evict);
    } else {
      assert At(t, k) == At(s, k);
    }
  }

  lemma StepAt(s: State, e: Event, k: Key)
    requires k in s.table ==> s.table[k].active >= 0
    ensures At(Step(s, e), k) == LimiterRecord.Run(At(s, k), Seen(s, e, k))
  {
    match e
    case Acquire(_, _, _, _, _) => AcquireAt(s, e, k);
    case Release(j, id) =>
      PutAt(s, j, LimiterRecord.Step(At(s, j), LimiterRecord.Release(id)), k);
      RunOne(At(s, k), LimiterRecord.Release(id));
    case Sweep(now) => RunOne(At(s, k), LimiterRecord.Sweep(now));
    case Forget(host) => RunOne(At(s, k), LimiterRecord.Forget);
  }

  lemma {:induction false} ActiveNeverNegative(r: Rec, es: seq<LimiterRecord.Event>)
    requires Active(r) >= 0
    ensures Active(LimiterRecord.Run(r, es)) >= 0
  {
    if es != [] { ActiveNeverNegative(r, es[..|es| - 1]); }
  }

  /** Clients are independent: each one's record goes through the shard's run exactly as it
      would through its own events alone. */
  lemma {:induction false} ClientsAreIndependent(es: seq<Event>, k: Key)
    ensures At(Run(es), k) == LimiterRecord.Run(NONE, Trace(es, k))
  {
    if es != [] {
      var init := es[..|es| - 1];
      ClientsAreIndependent(init, k);
      ActiveNeverNegative(NONE, Trace(init, k));
      StepAt(Run(init), es[|es| - 1], k);
      Sw.RunAppend(NONE, Trace(init, k), Seen(Run(init), es[|es| - 1], k));
    }
  }

  // ----- what that means for slots and sweeps -----

  /** Every request is given its own release. */
  ghost predicate OwnIds(es: seq<Event>) {
    forall i, j :: 0 <= i < j < |es| && es[i].Acquire? && es[j].Acquire? && es[i].k == es[j].k ==> es[i].id != es[j].id
  }

  ghost predicate NeverForgets(es: seq<Event>) {
    forall i :: 0 <= i < |es| ==> !es[i].Forget?
  }

  /** Whatever a client goes through comes from some event of the shard. */
  lemma {:induction false} TraceFrom(es: seq<Event>, k: Key, x: LimiterRecord.Event) returns (i: nat)
    requires x in Trace(es, k) && !x.Evict?
    ensures i < |es|
    ensures x.Acquire? ==> es[i].Acquire? && es[i].k == k && es[i].id == x.id && es[i].rules == x.rules && es[i].now == x.now
    ensures x.Sweep? ==> es[i].Sweep? && es[i].now == x.now
    ensures x.Forget? ==> es[i].Forget?
  {
    var init := es[..|es| - 1];
    if x in Trace(init, k) {
      i := TraceFrom(init, k, x);
    } else {
      i := |es| - 1;
      assert x in Seen(Run(init), es[i], k);
    }
  }

  lemma DistinctMore(a: seq<LimiterRecord.Event>, b: seq<LimiterRecord.Event>)
    requires DistinctIds(a) && |b| <= 1
    requires forall i :: 0 <= i < |a| && a[i].Acquire? && |b| == 1 && b[0].Acquire? ==> a[i].id != b[0].id
    ensures DistinctIds(a + b)
  {}

  lemma IdIsNew(es: seq<Event>, k: Key, x: LimiterRecord.Event)
    requires es != [] && OwnIds(es) && x.Acquire? && x in Trace(es[..|es| - 1], k)
    requires es[|es| - 1].Acquire? && es[|es| - 1].k == k
    ensures x.id != es[|es| - 1].id
  {
    var init := es[..|es| - 1];
    var j := TraceFrom(init, k, x);
    assert es[j] == init[j];
  }

  lemma {:induction false} TraceIds(es: seq<Event>, k: Key)
    requires OwnIds(es)
    ensures DistinctIds(Trace(es, k))
  {
    if es != [] {
      var init, e := es[..|es| - 1], es[|es| - 1];
      TraceIds(init, k);
      var before, seen := Trace(init, k), Seen(Run(init), e, k);
      if e.Acquire? && e.k == k {
        forall i | 0 <= i < |before| && before[i].Acquire? ensures before[i].id != e.id {
          IdIsNew(es, k, before[i]);
        }
      }
      DistinctMore(before, seen);
    }
  }

  lemma TraceForgets(es: seq<Event>, k: Key)
    requires NeverForgets(es)
    ensures NoForget(Trace(es, k))
  {
    var t := Trace(es, k);
    forall i | 0 <= i < |t| ensures !t[i].Forget? {
      if t[i].Forget? { var j := TraceFrom(es, k, t[i]); }
    }
  }

  /** Over every run of the shard, with evictions and sweeps anywhere and no Forget, each
      client's count is exactly its admitted requests not yet released; with Forget it can
      only be too low. */
  lemma SlotsAreCounted(es: seq<Event>, k: Key)
    requires OwnIds(es)
    ensures 0 <= Active(At(Run(es), k)) <= |At(Run(es), k).open|
    ensures NeverForgets(es) ==> Active(At(Run(es), k)) == |At(Run(es), k).open|
  {
    ClientsAreIndependent(es, k);
    TraceIds(es, k);
    ActiveCountsOpen(Trace(es, k));
    if NeverForgets(es) { TraceForgets(es, k); }
  }

  /** No run without Forget ever has more than a positive MaxConcurrent of one client's
      requests in flight. */
  lemma InFlightIsLimited(es: seq<Event>, k: Key, m: int)
    requires OwnIds(es) && NeverForgets(es) && m > 0
    requires forall i :: 0 <= i < |es| && es[i].Acquire? && es[i].k == k ==> es[i].rules.maxConcurrent == m
    ensures |At(Run(es), k).open| <= m
  {
    ClientsAreIndependent(es, k);
    TraceIds(es, k);
    TraceForgets(es, k);
    var t := Trace(es, k);
    forall i | 0 <= i < |t| && t[i].Acquire? ensures t[i].rules.maxConcurrent == m {
      var j := TraceFrom(es, k, t[i]);
    }
    NeverOverMaxConcurrent(t, m);
  }

  /** The answers one client gets over a run of the shard. */
  ghost function AnswersTo(es: seq<Event>, k: Key): seq<Verdict> {
    if es == [] then []
    else
      var init, e := es[..|es| - 1], es[|es| - 1];
      AnswersTo(init, k)
      + (if e.Acquire? && e.k == k
         then [VerdictOf(Run(init), e)] else [])
  }

  ghost function VerdictOf(s: State, e: Event): Verdict
    requires e.Acquire?
  {
    Judged(ClientOf(Roomier(s.table, e.k, e.victim), e.k, e.rules, e.now), e.rules, e.now).1
  }

  lemma VerdictIsOwn(s: State, e: Event)
    requires e.Acquire?
    ensures VerdictOf(s, e) == Answer(At(s, e.k), e.rules, e.now)
  {}

  lemma OneSeen(before: seq<LimiterRecord.Event>, seen: seq<LimiterRecord.Event>)
    requires |seen| == 1
    ensures Answers(NONE, before + seen) == Answers(NONE, before) +
              if seen[0].Acquire? then [Answer(LimiterRecord.Run(NONE, before), seen[0].rules, seen[0].now)] else []
  {
    assert seen == [seen[0]];
    OneMore(NONE, before, seen[0]);
  }

  lemma {:induction false} AnswersAreOwn(es: seq<Event>, k: Key)
    ensures AnswersTo(es, k) == Answers(NONE, Trace(es, k))
  {
    if es != [] {
      var init, e := es[..|es| - 1], es[|es| - 1];
      AnswersAreOwn(init, k);
      ClientsAreIndependent(init, k);
      var before, seen := Trace(init, k), Seen(Run(init), e, k);
      if seen == [] {
        assert Trace(es, k) == before && AnswersTo(es, k) == AnswersTo(init, k);
      } else {
        OneSeen(before, seen);
        if e.Acquire? && e.k == k { VerdictIsOwn(Run(init), e); }
      }
    }
  }

  function WithoutSweeps(es: seq<Event>): seq<Event> {
    if es == [] then []
    else WithoutSweeps(es[..|es| - 1]) + (if es[|es| - 1].Sweep? then [] else [es[|es| - 1]])
  }

  /** A client's own events, when the table never fills. */
  function MineOf(e: Event, k: Key): seq<LimiterRecord.Event> {
    match e
    case Acquire(j, id, rules, now, _) => if j == k then [LimiterRecord.Acquire(id, rules, now)] else []
    case Release(j, id) => if j == k then [LimiterRecord.Release(id)] else []
    case Sweep(now) => [LimiterRecord.Sweep(now)]
    case Forget(host) => if k.host == host then [LimiterRecord.Forget] else []
  }

  function Mine(es: seq<Event>, k: Key): seq<LimiterRecord.Event> {
    if es == [] then [] else Mine(es[..|es| - 1], k) + MineOf(es[|es| - 1], k)
  }

  /** All requests come from few enough clients for the table to hold. */
  ghost predicate FewClients(es: seq<Event>, keys: set<Key>) {
    |keys| <= MAX_PER_SHARD && forall i :: 0 <= i < |es| && es[i].Acquire? ==> es[i].k in keys
  }

  lemma RoomForOne(t: Table, k: Key, keys: set<Key>)
    requires t.Keys <= keys && k in keys && k !in t
    ensures |t| < |keys|
  {
    CardMono(t.Keys, keys - {k});
  }

  lemma {:induction false} CardMono(a: set<Key>, b: set<Key>)
    requires a <= b
    ensures |a| <= |b|
  {
    if a != {} {
      var x :| x in a;
      CardMono(a - {x}, b - {x});
    }
  }

  lemma {:induction false} FewStay(es: seq<Event>, keys: set<Key>)
    requires FewClients(es, keys)
    ensures Run(es).table.Keys <= keys
  {
    if es != [] {
      var init, e := es[..|es| - 1], es[|es| - 1];
      FewStay(init, keys);
      assert e.Acquire? ==> e.k in keys;
      if e.Release? && At(Run(init), e.k).client.None? {
        assert LimiterRecord.Step(At(Run(init), e.k), LimiterRecord.Release(e.id)).client.None?;
      }
    }
  }

  lemma {:induction false} TraceIsMine(es: seq<Event>, k: Key, keys: set<Key>)
    requires FewClients(es, keys)
    ensures Trace(es, k) == Mine(es, k)
  {
    if es != [] {
      var init, e := es[..|es| - 1], es[|es| - 1];
      TraceIsMine(init, k, keys);
      FewStay(init, keys);
      if e.Acquire? && e.k !in Run(init).table { RoomForOne(Run(init).table, e.k, keys); }
    }
  }

  lemma {:induction false} MineUnswept(es: seq<Event>, k: Key)
    ensures Mine(WithoutSweeps(es), k) == Sw.NoSweeps(Mine(es, k))
  {
    if es != [] {
      var init, e := es[..|es| - 1], es[|es| - 1];
      MineUnswept(init, k);
      var w, m := WithoutSweeps(init), Mine(init, k);
      assert (w + [e])[..|w|] == w;
      if MineOf(e, k) == [] {
        assert m + [] == m && Mine(w, k) + [] == Mine(w, k) && w + [] == w;
      } else {
        var x := MineOf(e, k)[0];
        assert MineOf(e, k) == [x] && (m + [x])[..|m|] == m;
        if e.Sweep? { assert w + [] == w && Sw.NoSweeps(m) + [] == Sw.NoSweeps(m); }
      }
    }
  }

  lemma {:induction false} FewUnswept(es: seq<Event>, keys: set<Key>)
    requires FewClients(es, keys)
    ensures FewClients(WithoutSweeps(es), keys)
  {
    if es != [] {
      FewUnswept(es[..|es| - 1], keys);
      assert es[|es| - 1].Acquire? ==> es[|es| - 1].k in keys;
    }
  }

  /** Rules fixed per host, a clock that does not go back, one release per request. */
  ghost predicate Steady(es: seq<Event>, rulesOf: int -> Rules) {
    && OwnIds(es)
    && (forall i :: 0 <= i < |es| && es[i].Acquire? ==> es[i].rules == rulesOf(es[i].k.host))
    && forall i, j :: 0 <= i < j < |es| && Clocked(es[i]) && Clocked(es[j]) ==> es[i].now <= es[j].now
  }

  predicate Clocked(e: Event) { e.Acquire? || e.Sweep? }

  lemma OrdinaryMore(a: seq<LimiterRecord.Event>, b: seq<LimiterRecord.Event>, rules: Rules)
    requires Sw.Ordinary(a, rules, 0.0) && |b| <= 1 && DistinctIds(a + b)
    requires |b| == 1 ==> !b[0].Evict? && (b[0].Acquire? ==> b[0].rules == rules)
    requires forall i :: 0 <= i < |a| && Sw.Timed(a[i]) && |b| == 1 && Sw.Timed(b[0]) ==> a[i].now <= b[0].now
    ensures Sw.Ordinary(a + b, rules, 0.0)
  {
    var all := a + b;
    forall i, j | 0 <= i < j < |all| && Sw.Timed(all[i]) && Sw.Timed(all[j]) ensures Sw.Behind(all[i], all[j], 0.0) {
      if j < |a| { assert Sw.Behind(a[i], a[j], 0.0); }
    }
  }

  lemma {:induction false} MineOrdinary(es: seq<Event>, k: Key, rulesOf: int -> Rules, keys: set<Key>)
    requires Steady(es, rulesOf) && FewClients(es, keys)
    ensures Sw.Ordinary(Mine(es, k), rulesOf(k.host), 0.0)
  {
    if es != [] {
      var init, e := es[..|es| - 1], es[|es| - 1];
      MineOrdinary(init, k, rulesOf, keys);
      TraceIds(es, k);
      TraceIsMine(es, k, keys);
      TraceIsMine(init, k, keys);
      var a, b := Mine(init, k), MineOf(e, k);
      forall i | 0 <= i < |a| && Sw.Timed(a[i]) && |b| == 1 && Sw.Timed(b[0]) ensures a[i].now <= b[0].now {
        var j := TraceFrom(init, k, a[i]);
        assert es[j] == init[j] && Clocked(es[j]) && Clocked(es[|es| - 1]);
      }
      OrdinaryMore(a, b, rulesOf(k.host));
    }
  }

  /** In a shard with room for all its clients, sweeping changes no answer to a client whose own
      host's bucket refills within the idle period, whatever the other hosts' rules. */
  lemma RoomySweepsInvisible(es: seq<Event>, k: Key, rulesOf: int -> Rules, keys: set<Key>)
    requires Steady(es, rulesOf) && FewClients(es, keys) && Sw.Refills(rulesOf(k.host), 0.0)
    ensures AnswersTo(es, k) == AnswersTo(WithoutSweeps(es), k)
  {
    FewUnswept(es, keys);
    AnswersAreOwn(es, k);
    AnswersAreOwn(WithoutSweeps(es), k);
    TraceIsMine(es, k, keys);
    TraceIsMine(WithoutSweeps(es), k, keys);
    MineOrdinary(es, k, rulesOf, keys);
    MineUnswept(es, k);
    Sw.SweepsInvisible(Mine(es, k), rulesOf(k.host), 0.0);
  }
}

/** Reports on one backend that overlap. The failure count and the ejection deadline are updated
    without a lock, one atomic operation at a time, and other reports come in between.
 */
module HealthOverlap {
  import opened Basics
  import opened Health

  /** Where a report is: about to begin; past an Add that reached the limit; past its reset of the
      count; past its look at the deadline. */
  datatype Phase = Begun | Over | Zeroed | Checked(was: bool)

  datatype Call = Call(t: Traffic, phase: Phase)

  /** The atomic operations on the two counters, by the report that made them. */
  datatype Op = Add(id: nat, at: int) | Reset(id: nat) | Set(id: nat, until: int)

  datatype State = State(fails: int, until: int, calls: map<nat, Call>, log: seq<Op>)

  const FRESH := State(0, 0, map[], [])

  datatype Event = Begin(id: nat, t: Traffic) | Step(id: nat)

  function Going(s: State, id: nat, c: Call, phase: Phase): map<nat, Call> { s.calls[id := c.(phase := phase)] }

  /** The next operation of a report of a failure. */
  function Failing(s: State, id: nat, c: Call, cfg: PassiveHealth): State
    requires Fails(c.t)
  {
    match c.phase
    case Begun =>
      State(s.fails + 1, s.until, if s.fails + 1 < cfg.maxFails then s.calls - {id} else Going(s, id, c, Over), s.log + [Add(id, c.t.at)])
    case Over => State(0, s.until, Going(s, id, c, Zeroed), s.log + [Reset(id)])
    case Zeroed => s.(calls := Going(s, id, c, Checked(s.until != 0 && s.until - c.t.at > 0)))
    case Checked(_) => State(s.fails, c.t.at + cfg.ejectFor, s.calls - {id}, s.log + [Set(id, c.t.at + cfg.ejectFor)])
  }

  /** The next operation of a report of a success, or of a clearing. */
  function Clearing(s: State, id: nat, c: Call): State {
    if c.phase.Begun? then State(0, s.until, Going(s, id, c, Zeroed), s.log + [Reset(id)])
    else State(s.fails, 0, s.calls - {id}, s.log + [Set(id, 0)])
  }

  function Next(s: State, e: Event, cfg: PassiveHealth): State {
    match e
    case Begin(id, t) => if id in s.calls then s else s.(calls := s.calls[id := Call(t, Begun)])
    case Step(id) =>
      if id !in s.calls then s
      else
        var c := s.calls[id];
        if Fails(c.t) then Failing(s, id, c, cfg) else Clearing(s, id, c)
  }

  function Run(es: seq<Event>, cfg: PassiveHealth): State {
    if es == [] then FRESH else Next(Run(es[..|es| - 1], cfg), es[|es| - 1], cfg)
  }

  // ----- what the two counters mean -----

  /** Failures added since the count was last reset. */
  function AddsSince(log: seq<Op>): nat {
    if log == [] then 0
    else
      match log[|log| - 1]
      case Add(_, _) => AddsSince(log[..|log| - 1]) + 1
      case Reset(_) => 0
      case Set(_, _) => AddsSince(log[..|log| - 1])
  }

  function LastSet(log: seq<Op>): int {
    if log == [] then 0 else if log[|log| - 1].Set? then log[|log| - 1].until else LastSet(log[..|log| - 1])
  }

  lemma LogMore(log: seq<Op>, op: Op)
    ensures AddsSince(log + [op]) == match op case Add(_, _) => AddsSince(log) + 1 case Reset(_) => 0 case Set(_, _) => AddsSince(log)
    ensures LastSet(log + [op]) == if op.Set? then op.until else LastSet(log)
  {
    assert (log + [op])[..|log|] == log;
  }

  /** The operation the event makes, if any. */
  function OpOf(s: State, e: Event, cfg: PassiveHealth): Option<Op> {
    if e.Begin? || e.id !in s.calls then None
    else
      var c := s.calls[e.id];
      match c.phase
      case Begun => Some(if Fails(c.t) then Add(e.id, c.t.at) else Reset(e.id))
      case Over => Some(if Fails(c.t) then Reset(e.id) else Set(e.id, 0))
      case Zeroed => if Fails(c.t) then None else Some(Set(e.id, 0))
      case Checked(_) => Some(Set(e.id, if Fails(c.t) then c.t.at + cfg.ejectFor else 0))
  }

  /** The two counters, and the log, move by that operation. */
  lemma NextIs(s: State, e: Event, cfg: PassiveHealth)
    ensures var n, op := Next(s, e, cfg), OpOf(s, e, cfg);
            && n.log == (if op.Some? then s.log + [op.value] else s.log)
            && n.fails == (if op.Some? && op.value.Add? then s.fails + 1 else if op.Some? && op.value.Reset? then 0 else s.fails)
            && n.until == (if op.Some? && op.value.Set? then op.value.until else s.until)
  {}

  ghost predicate Meant(s: State) { s.fails == AddsSince(s.log) && s.until == LastSet(s.log) }

  lemma NextMeant(s: State, e: Event, cfg: PassiveHealth)
    requires Meant(s)
    ensures Meant(Next(s, e, cfg))
  {
    NextIs(s, e, cfg);
    if OpOf(s, e, cfg).Some? { LogMore(s.log, OpOf(s, e, cfg).value); }
  }

  /** However reports overlap, the failure count is the failures added since it was last reset, and
      the deadline the one last set. */
  lemma {:induction false} CountersMean(es: seq<Event>, cfg: PassiveHealth)
    ensures Run(es, cfg).fails == AddsSince(Run(es, cfg).log) && Run(es, cfg).until == LastSet(Run(es, cfg).log)
  {
    if es != [] {
      CountersMean(es[..|es| - 1], cfg);
      NextMeant(Run(es[..|es| - 1], cfg), es[|es| - 1], cfg);
    }
  }

  // ----- when a backend is ejected -----

  /** Operation i of the log is a failure that reached the limit: with it, at least MaxFails were added
      since the count was last reset. */
  ghost predicate Reaches(log: seq<Op>, i: nat, id: nat, at: int, cfg: PassiveHealth) {
    i < |log| && log[i] == Add(id, at) && AddsSince(log[..i + 1]) >= cfg.maxFails
  }

  ghost predicate Reached(log: seq<Op>, id: nat, at: int, cfg: PassiveHealth) {
    exists i: nat :: Reaches(log, i, id, at, cfg)
  }

  /** A report of a failure goes on to eject exactly when its own Add reached the limit. */
  lemma GoesOnExactly(es: seq<Event>, id: nat, cfg: PassiveHealth)
    requires id in Run(es, cfg).calls && Fails(Run(es, cfg).calls[id].t) && Run(es, cfg).calls[id].phase.Begun?
    ensures var s := Next(Run(es, cfg), Step(id), cfg);
            id in s.calls <==> AddsSince(s.log) >= cfg.maxFails
  {
    CountersMean(es, cfg);
    var s := Run(es, cfg);
    LogMore(s.log, Add(id, s.calls[id].t.at));
  }

  /** Every report that is past its Add reached the limit. */
  ghost predicate CallsReached(s: State, cfg: PassiveHealth) {
    forall id :: id in s.calls && Fails(s.calls[id].t) && !s.calls[id].phase.Begun? ==> Reached(s.log, id, s.calls[id].t.at, cfg)
  }

  /** Every deadline in the log was earned by such a report, made before it. */
  ghost predicate SetsReached(log: seq<Op>, cfg: PassiveHealth) {
    forall j :: 0 <= j < |log| && log[j].Set? && log[j].until != 0 ==> Reached(log[..j], log[j].id, log[j].until - cfg.ejectFor, cfg)
  }

  lemma ReachedMore(log: seq<Op>, op: Op, id: nat, at: int, cfg: PassiveHealth)
    requires Reached(log, id, at, cfg)
    ensures Reached(log + [op], id, at, cfg)
  {
    var i: nat :| Reaches(log, i, id, at, cfg);
    assert (log + [op])[..i + 1] == log[..i + 1];
    assert Reaches(log + [op], i, id, at, cfg);
  }

  lemma SetsMore(log: seq<Op>, op: Op, cfg: PassiveHealth)
    requires SetsReached(log, cfg)
    requires op.Set? && op.until != 0 ==> Reached(log, op.id, op.until - cfg.ejectFor, cfg)
    ensures SetsReached(log + [op], cfg)
  {
    var all := log + [op];
    forall j | 0 <= j < |all| && all[j].Set? && all[j].until != 0
      ensures Reached(all[..j], all[j].id, all[j].until - cfg.ejectFor, cfg)
    {
      assert all[..j] == if j < |log| then log[..j] else log;
    }
  }

  lemma AddReaches(log: seq<Op>, id: nat, at: int, cfg: PassiveHealth)
    requires AddsSince(log) + 1 >= cfg.maxFails
    ensures Reached(log + [Add(id, at)], id, at, cfg)
  {
    var all := log + [Add(id, at)];
    LogMore(log, Add(id, at));
    assert all[..|log| + 1] == all;
    assert Reaches(all, |log|, id, at, cfg);
  }

  /** A report past its Add was so before, or has just reached the limit. */
  lemma WasPast(s: State, e: Event, cfg: PassiveHealth, id: nat)
    requires var n := Next(s, e, cfg); id in n.calls && Fails(n.calls[id].t) && !n.calls[id].phase.Begun?
    ensures id in s.calls && s.calls[id].t == Next(s, e, cfg).calls[id].t
    ensures s.calls[id].phase.Begun? ==> OpOf(s, e, cfg) == Some(Add(id, s.calls[id].t.at)) && s.fails + 1 >= cfg.maxFails
  {}

  lemma NextReached(s: State, e: Event, cfg: PassiveHealth, id: nat)
    requires Meant(s) && CallsReached(s, cfg)
    requires var n := Next(s, e, cfg); id in n.calls && Fails(n.calls[id].t) && !n.calls[id].phase.Begun?
    ensures Reached(Next(s, e, cfg).log, id, Next(s, e, cfg).calls[id].t.at, cfg)
  {
    WasPast(s, e, cfg, id);
    NextIs(s, e, cfg);
    var at := s.calls[id].t.at;
    if s.calls[id].phase.Begun? {
      AddReaches(s.log, id, at, cfg);
    } else if OpOf(s, e, cfg).Some? {
      ReachedMore(s.log, OpOf(s, e, cfg).value, id, at, cfg);
    }
  }

  lemma NextCalls(s: State, e: Event, cfg: PassiveHealth)
    requires Meant(s) && CallsReached(s, cfg)
    ensures CallsReached(Next(s, e, cfg), cfg)
  {
    var n := Next(s, e, cfg);
    forall id | id in n.calls && Fails(n.calls[id].t) && !n.calls[id].phase.Begun?
      ensures Reached(n.log, id, n.calls[id].t.at, cfg)
    {
      NextReached(s, e, cfg, id);
    }
  }

  lemma NextSets(s: State, e: Event, cfg: PassiveHealth)
    requires CallsReached(s, cfg) && SetsReached(s.log, cfg)
    ensures SetsReached(Next(s, e, cfg).log, cfg)
  {
    NextIs(s, e, cfg);
    if OpOf(s, e, cfg).Some? { SetsMore(s.log, OpOf(s, e, cfg).value, cfg); }
  }

  lemma {:induction false} RunReached(es: seq<Event>, cfg: PassiveHealth)
    ensures CallsReached(Run(es, cfg), cfg) && SetsReached(Run(es, cfg).log, cfg)
  {
    if es != [] {
      var init := es[..|es| - 1];
      RunReached(init, cfg);
      CountersMean(init, cfg);
      NextCalls(Run(init, cfg), es[|es| - 1], cfg);
      NextSets(Run(init, cfg), es[|es| - 1], cfg);
    }
  }

  lemma {:induction false} LastSetAt(log: seq<Op>) returns (j: nat)
    requires LastSet(log) != 0
    ensures j < |log| && log[j].Set? && log[j].until == LastSet(log)
    ensures forall k :: j < k < |log| ==> !log[k].Set?
  {
    if log[|log| - 1].Set? {
      j := |log| - 1;
    } else {
      j := LastSetAt(log[..|log| - 1]);
    }
  }

  /** However reports overlap, a backend is out of rotation only by a report of a failure that came
      when MaxFails had been added since the count was last reset, for EjectFor from that report, and
      with no deadline set or cleared since. */
  lemma EjectedWasEarned(es: seq<Event>, cfg: PassiveHealth, now: int) returns (i: nat, j: nat)
    requires var u := Run(es, cfg).until; u != 0 && u - now > 0
    ensures var log := Run(es, cfg).log;
            && i < j < |log| && log[i].Add? && log[j] == Set(log[i].id, log[i].at + cfg.ejectFor)
            && AddsSince(log[..i + 1]) >= cfg.maxFails && now < log[i].at + cfg.ejectFor
            && forall k :: j < k < |log| ==> !log[k].Set?
  {
    CountersMean(es, cfg);
    RunReached(es, cfg);
    var log := Run(es, cfg).log;
    j := LastSetAt(log);
    i := SetWasReached(log, j, cfg);
  }

  lemma SetWasReached(log: seq<Op>, j: nat, cfg: PassiveHealth) returns (i: nat)
    requires SetsReached(log, cfg) && j < |log| && log[j].Set? && log[j].until != 0
    ensures i < j && log[i].Add? && log[j] == Set(log[i].id, log[i].at + cfg.ejectFor) && AddsSince(log[..i + 1]) >= cfg.maxFails
  {
    var before := log[..j];
    assert Reached(before, log[j].id, log[j].until - cfg.ejectFor, cfg);
    i :| Reaches(before, i, log[j].id, log[j].until - cfg.ejectFor, cfg);
    assert before[..i + 1] == log[..i + 1] && before[i] == log[i];
  }

  // ----- how far overlap can push the count -----

  ghost function OverCalls(s: State): set<nat> { set id | id in s.calls && s.calls[id].phase.Over? }

  function Limit(cfg: PassiveHealth): nat { if cfg.maxFails < 1 then 1 else cfg.maxFails }

  /** Only failures that reached the limit enter that phase. */
  ghost predicate Bounded(s: State, cfg: PassiveHealth) {
    && 0 <= s.fails <= Limit(cfg) - 1 + |OverCalls(s)|
    && forall id :: id in s.calls && s.calls[id].phase.Over? ==> Fails(s.calls[id].t)
  }

  lemma OthersStay(s: State, e: Event, cfg: PassiveHealth)
    ensures OverCalls(Next(s, e, cfg)) - {e.id} == OverCalls(s) - {e.id}
  {
    var n := Next(s, e, cfg);
    forall k | k != e.id ensures k in OverCalls(n) <==> k in OverCalls(s) {
      assert k in n.calls <==> k in s.calls;
      assert k in s.calls ==> n.calls[k] == s.calls[k];
    }
  }

  lemma NextBounded(s: State, e: Event, cfg: PassiveHealth)
    requires Bounded(s, cfg)
    ensures Bounded(Next(s, e, cfg), cfg)
  {
    OthersStay(s, e, cfg);
    OneDiffers(OverCalls(s), OverCalls(Next(s, e, cfg)), e.id);
  }

  /** The count passes MaxFails only by as many as are between reaching the limit and resetting it. */
  lemma {:induction false} CountIsBounded(es: seq<Event>, cfg: PassiveHealth)
    ensures Bounded(Run(es, cfg), cfg)
  {
    if es == [] {
      assert OverCalls(FRESH) == {};
    } else {
      CountIsBounded(es[..|es| - 1], cfg);
      NextBounded(Run(es[..|es| - 1], cfg), es[|es| - 1], cfg);
    }
  }

  // ----- reports that do not overlap -----

  function Four(s: State, id: nat, cfg: PassiveHealth): State {
    Next(Next(Next(Next(s, Step(id), cfg), Step(id), cfg), Step(id), cfg), Step(id), cfg)
  }

  /** A report that runs by itself is the one step the other results take it for. */
  lemma AloneIsOneStep(s: State, id: nat, t: Traffic, cfg: PassiveHealth, r: Runtime)
    requires s.calls == map[] && cfg.enabled && r.proxyFails == s.fails && r.ejectedUntil == s.until
    ensures var n := Four(Next(s, Begin(id, t), cfg), id, cfg);
            n.calls == map[] && n.fails == Moved(r, t, cfg).proxyFails && n.until == Moved(r, t, cfg).ejectedUntil
  {
    var a := Next(s, Begin(id, t), cfg);
    assert a.calls == map[id := Call(t, Begun)];
    var b := Next(a, Step(id), cfg);
    if Fails(t) && s.fails + 1 < cfg.maxFails {
      assert b.calls == map[];
    } else if Fails(t) {
      var c := Next(b, Step(id), cfg);
      assert c.calls == map[id := Call(t, Zeroed)];
      var d := Next(c, Step(id), cfg);
      assert d.calls.Keys == {id};
      assert Next(d, Step(id), cfg).calls == map[];
    } else {
      assert b.calls == map[id := Call(t, Zeroed)];
      assert Next(b, Step(id), cfg).calls == map[];
    }
  }

  function Alone(id: nat, t: Traffic): seq<Event> { [Begin(id, t), Step(id), Step(id), Step(id), Step(id)] }

  /** One report after the other. */
  function InTurn(h: seq<Traffic>): seq<Event> {
    if h == [] then [] else InTurn(h[..|h| - 1]) + Alone(|h|, h[|h| - 1])
  }

  lemma RunMore(es: seq<Event>, e: Event, cfg: PassiveHealth)
    ensures Run(es + [e], cfg) == Next(Run(es, cfg), e, cfg)
  {
    assert (es + [e])[..|es|] == es;
  }

  lemma RunAlone(es: seq<Event>, id: nat, t: Traffic, cfg: PassiveHealth)
    ensures Run(es + Alone(id, t), cfg) == Four(Next(Run(es, cfg), Begin(id, t), cfg), id, cfg)
  {
    var a := es + [Begin(id, t)];
    var b := a + [Step(id)];
    var c := b + [Step(id)];
    var d := c + [Step(id)];
    RunMore(es, Begin(id, t), cfg);
    RunMore(a, Step(id), cfg);
    RunMore(b, Step(id), cfg);
    RunMore(c, Step(id), cfg);
    RunMore(d, Step(id), cfg);
    assert es + Alone(id, t) == d + [Step(id)];
  }

  /** Reports that do not overlap leave what the run of whole reports says. */
  lemma {:induction false} InTurnIsProxyRun(h: seq<Traffic>, cfg: PassiveHealth)
    requires cfg.enabled
    ensures var s, r := Run(InTurn(h), cfg), ProxyRun(NEW, h, cfg);
            s.calls == map[] && s.fails == r.proxyFails && s.until == r.ejectedUntil
  {
    if h != [] {
      var g := h[..|h| - 1];
      InTurnIsProxyRun(g, cfg);
      RunAlone(InTurn(g), |h|, h[|h| - 1], cfg);
      AloneIsOneStep(Run(InTurn(g), cfg), |h|, h[|h| - 1], cfg, ProxyRun(NEW, g, cfg));
    }
  }

  /** Overlapping ones need not: here five failures in a row, three to an ejection, leave the count at
      zero, where one after the other they leave two. */
  lemma OverlapMiscounts(cfg: PassiveHealth, at: int) returns (es: seq<Event>)
    requires cfg.enabled && cfg.maxFails == 3
    ensures var h := [Result(false, at), Result(false, at), Result(false, at), Result(false, at), Result(false, at)];
            Run(es, cfg).fails == 0 && ProxyRun(NEW, h, cfg).proxyFails == 2
    ensures forall i :: 0 <= i < |es| && es[i].Begin? ==> es[i].t == Result(false, at)
    ensures |es| == 12
  {
    var t := Result(false, at);
    es := [Begin(0, t), Step(0), Begin(1, t), Step(1), Begin(2, t), Step(2), Begin(3, t), Step(3), Step(2), Begin(4, t), Step(4), Step(3)];
    Twelve(es, cfg, t);
    var h := [t, t, t, t, t];
    CounterMeansFailRun(h, cfg);
    FiveFail(h);
  }

  lemma FiveFail(h: seq<Traffic>)
    requires |h| == 5 && forall i :: 0 <= i < 5 ==> Fails(h[i])
    ensures FailRun(h, 5) == 5
  {
    assert FailRun(h, 1) == 1;
    assert FailRun(h, 2) == 2;
    assert FailRun(h, 3) == 3;
    assert FailRun(h, 4) == 4;
  }

  lemma UpTo(es: seq<Event>, n: nat, cfg: PassiveHealth)
    requires n < |es|
    ensures Run(es[..n + 1], cfg) == Next(Run(es[..n], cfg), es[n], cfg)
  {
    assert es[..n + 1] == es[..n] + [es[n]];
    RunMore(es[..n], es[n], cfg);
  }

  lemma Twelve(ev: seq<Event>, cfg: PassiveHealth, t: Traffic)
    requires cfg.maxFails == 3 && Fails(t)
    requires ev == [Begin(0, t), Step(0), Begin(1, t), Step(1), Begin(2, t), Step(2), Begin(3, t), Step(3), Step(2), Begin(4, t), Step(4), Step(3)]
    ensures Run(ev, cfg).fails == 0
  {
    FirstFour(ev, cfg, t);
    NextFour(ev, cfg, t);
    UpTo(ev, 8, cfg);
    AddAt(ev, 9, 4, cfg, t);
    UpTo(ev, 11, cfg);
    assert Run(ev[..9], cfg).fails == 0 && 3 in Run(ev[..9], cfg).calls && Run(ev[..9], cfg).calls[3] == Call(t, Over);
    assert ev[..12] == ev;
  }

  lemma NextFour(ev: seq<Event>, cfg: PassiveHealth, t: Traffic)
    requires cfg.maxFails == 3 && Fails(t) && |ev| == 12
    requires ev[4] == Begin(2, t) && ev[5] == Step(2) && ev[6] == Begin(3, t) && ev[7] == Step(3)
    requires Run(ev[..4], cfg).fails == 2 && Run(ev[..4], cfg).calls == map[]
    ensures Run(ev[..8], cfg).fails == 4 && Run(ev[..8], cfg).calls == map[2 := Call(t, Over), 3 := Call(t, Over)]
  {
    AddAt(ev, 4, 2, cfg, t);
    AddAt(ev, 6, 3, cfg, t);
  }

  /** A report begins and adds its failure. */
  lemma AddAt(ev: seq<Event>, n: nat, id: nat, cfg: PassiveHealth, t: Traffic)
    requires n + 1 < |ev| && ev[n] == Begin(id, t) && ev[n + 1] == Step(id) && Fails(t) && id !in Run(ev[..n], cfg).calls
    ensures var s, u := Run(ev[..n], cfg), Run(ev[..n + 2], cfg);
            u.fails == s.fails + 1 && u.calls == if u.fails < cfg.maxFails then s.calls else s.calls[id := Call(t, Over)]
  {
    UpTo(ev, n, cfg);
    UpTo(ev, n + 1, cfg);
    var s := Run(ev[..n], cfg);
    assert s.calls[id := Call(t, Begun)] - {id} == s.calls;
    assert s.calls[id := Call(t, Begun)][id := Call(t, Over)] == s.calls[id := Call(t, Over)];
  }

  lemma FirstFour(ev: seq<Event>, cfg: PassiveHealth, t: Traffic)
    requires cfg.maxFails == 3 && Fails(t) && |ev| == 12
    requires ev[..4] == [Begin(0, t), Step(0), Begin(1, t), Step(1)]
    ensures Run(ev[..4], cfg).fails == 2 && Run(ev[..4], cfg).calls == map[]
  {
    assert ev[0] == ev[..4][0] && ev[1] == ev[..4][1] && ev[2] == ev[..4][2] && ev[3] == ev[..4][3];
    assert ev[..0] == [];
    AddAt(ev, 0, 0, cfg, t);
    AddAt(ev, 2, 1, cfg, t);
  }
}

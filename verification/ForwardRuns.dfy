/** The retry loop of many requests at once, interleaved in every order with each other and with
    whatever else is learned about the backends. Picking, taking a slot, giving it back and
    reporting are separate steps.
 */
module ForwardRuns {
  import opened Basics
  import opened Health
  import F = Forward

  /** Backends are positions in the pool; maxConns 0 is no limit. */
  datatype Config = Config(enabled: seq<bool>, maxConns: seq<int>, passive: PassiveHealth, maxRetries: int)

  /** Learned state, slots in use, requests finished, results reported. */
  datatype Counters = Counters(state: Runtime, active: int, total: nat, reports: nat)

  /** Without a backend, the cause is whether any is enabled. */
  type Ending = F.Ending<nat, bool>

  datatype Phase = Choosing | Chosen(b: nat) | Holding(b: nat) | Reporting(b: nat) | Ended(end: Ending)

  /** One request: the backends it tried, how each finished attempt went, and how often its result
      was recorded. */
  datatype Req = Req(bodyless: bool, tried: seq<nat>, trips: seq<F.Trip>, phase: Phase, recorded: nat)

  datatype System = System(views: seq<Counters>, reqs: map<nat, Req>)

  datatype Event =
    | Start(id: nat, bodyless: bool)
    | Pick(id: nat, b: nat, now: int)
    | Take(id: nat)
    | Give(id: nat, trip: F.Trip)
    | Report(id: nat, now: int)
    | Learn(b: nat, state: Runtime)

  ghost predicate Eligible(views: seq<Counters>, cfg: Config, tried: seq<nat>, b: nat, now: int) {
    && b < |views| && b < |cfg.enabled| && b < |cfg.maxConns| && b !in tried
    && F.CanTake(cfg.enabled[b], cfg.maxConns[b], views[b].state, views[b].active, now)
  }

  ghost predicate AnyEnabled(cfg: Config) {
    exists b :: 0 <= b < |cfg.enabled| && cfg.enabled[b]
  }

  /** The pool's choice b, any eligible one; nothing eligible ends the request. */
  ghost function Picked(r: Req, views: seq<Counters>, cfg: Config, b: nat, now: int): Req {
    if Eligible(views, cfg, r.tried, b, now) then r.(tried := r.tried + [b], phase := Chosen(b))
    else if exists c :: Eligible(views, cfg, r.tried, c, now) then r
    else r.(phase := Ended(if r.tried == [] then F.Unavailable(AnyEnabled(cfg)) else F.BadGateway(r.tried[|r.tried| - 1])), recorded := r.recorded + 1)
  }

  function Reported(r: Req, cfg: Config): Req
    requires r.phase.Reporting? && r.trips != []
  {
    var trip := r.trips[|r.trips| - 1];
    if F.MayRetry(|r.tried| - 1, trip, r.bodyless, cfg.maxRetries) then r.(phase := Choosing)
    else r.(phase := Ended(F.EndOf(r.phase.b, trip)), recorded := r.recorded + 1)
  }

  /** A request's own step, if the event is its next one. */
  ghost function Own(r: Req, views: seq<Counters>, cfg: Config, ev: Event): Req {
    match ev
    case Pick(_, b, now) => if r.phase.Choosing? then Picked(r, views, cfg, b, now) else r
    case Take(_) => if r.phase.Chosen? then r.(phase := Holding(r.phase.b)) else r
    case Give(_, trip) => if r.phase.Holding? then r.(phase := Reporting(r.phase.b), trips := r.trips + [trip]) else r
    case Report(_, _) => if r.phase.Reporting? && r.trips != [] then Reported(r, cfg) else r
    case _ => r
  }

  /** What the step does to its backend. */
  function Touched(v: Counters, ev: Event, trips: seq<F.Trip>, cfg: Config): Counters {
    match ev
    case Take(_) => v.(active := v.active + 1)
    case Give(_, _) => v.(active := v.active - 1, total := v.total + 1)
    case Report(_, now) =>
      if trips == [] then v
      else v.(state := Proxied(v.state, !trips[|trips| - 1].failed, cfg.passive, now), reports := v.reports + 1)
    case _ => v
  }

  /** The backend the event acts on, when it is the request's next step. */
  function Target(r: Req, ev: Event): Option<nat> {
    match (r.phase, ev)
    case (Chosen(b), Take(_)) => Some(b)
    case (Holding(b), Give(_, _)) => Some(b)
    case (Reporting(b), Report(_, _)) => Some(b)
    case _ => None
  }

  ghost function Next(s: System, cfg: Config, ev: Event): System {
    match ev
    case Start(id, bodyless) =>
      if id in s.reqs then s else s.(reqs := s.reqs[id := Req(bodyless, [], [], Choosing, 0)])
    case Learn(b, state) =>
      if b < |s.views| then s.(views := s.views[b := s.views[b].(state := state)]) else s
    case _ =>
      if ev.id !in s.reqs then s
      else
        var r := s.reqs[ev.id];
        var t := Target(r, ev);
        System(if t.Some? && t.value < |s.views| then s.views[t.value := Touched(s.views[t.value], ev, r.trips, cfg)] else s.views,
               s.reqs[ev.id := Own(r, s.views, cfg, ev)])
  }

  /** A pool of n backends nobody uses yet. */
  function Fresh(n: nat): System { System(seq(n, _ => Counters(NEW, 0, 0, 0)), map[]) }

  ghost function Run(n: nat, cfg: Config, events: seq<Event>): System {
    if events == [] then Fresh(n) else Next(Run(n, cfg, events[..|events| - 1]), cfg, events[|events| - 1])
  }

  // ----- each request keeps its rules -----

  /** Its attempts so far that were given back. */
  function Given(r: Req): nat {
    if (r.phase.Chosen? || r.phase.Holding?) && r.tried != [] then |r.tried| - 1 else |r.tried|
  }

  /** The attempts it went on from were clean failures of a request that can be replayed. */
  ghost predicate Retried(r: Req, upto: nat, cfg: Config)
    requires upto <= |r.trips|
  {
    forall i :: 0 <= i < upto ==> F.MayRetry(i, r.trips[i], r.bodyless, cfg.maxRetries)
  }

  ghost predicate Sound(r: Req, n: nat, cfg: Config) {
    && F.NoRepeats(r.tried) && (forall i :: 0 <= i < |r.tried| ==> r.tried[i] < n)
    && |r.trips| == Given(r)
    && (r.phase.Chosen? || r.phase.Holding? || r.phase.Reporting? ==> r.tried != [] && r.tried[|r.tried| - 1] == r.phase.b)
    && Retried(r, if r.phase.Choosing? || |r.tried| == 0 then |r.trips| else if Given(r) < |r.tried| then Given(r) else |r.tried| - 1, cfg)
    && r.recorded == (if r.phase.Ended? then 1 else 0)
    && (r.phase.Ended? ==> EndedWell(r, cfg))
  }

  /** Unavailable exactly when nothing was attempted, else what the last attempt came to. */
  ghost predicate EndedWell(r: Req, cfg: Config)
    requires r.phase.Ended? && |r.trips| == Given(r)
  {
    r.phase.end == if r.tried == [] then F.Unavailable(AnyEnabled(cfg)) else F.EndOf(r.tried[|r.tried| - 1], r.trips[|r.tried| - 1])
  }

  lemma PickedSound(r: Req, views: seq<Counters>, cfg: Config, b: nat, now: int)
    requires Sound(r, |views|, cfg) && r.phase.Choosing?
    ensures Sound(Picked(r, views, cfg, b, now), |views|, cfg)
  {
    if r.tried != [] { assert F.MayRetry(|r.tried| - 1, r.trips[|r.tried| - 1], r.bodyless, cfg.maxRetries); }
    if b !in r.tried { TriedMore(r.tried, b); }
  }

  lemma TriedMore(tried: seq<nat>, b: nat)
    requires F.NoRepeats(tried) && b !in tried
    ensures F.NoRepeats(tried + [b])
  {
    var more := tried + [b];
    forall i, j | 0 <= i < j < |more| ensures F.Differ(more, i, j) {
      if j < |tried| { assert F.Differ(tried, i, j); }
    }
  }

  lemma GivenSound(r: Req, n: nat, cfg: Config, trip: F.Trip)
    requires Sound(r, n, cfg) && r.phase.Holding?
    ensures Sound(r.(phase := Reporting(r.phase.b), trips := r.trips + [trip]), n, cfg)
  {
    assert forall i :: 0 <= i < |r.trips| ==> (r.trips + [trip])[i] == r.trips[i];
  }

  lemma ReportedSound(r: Req, n: nat, cfg: Config)
    requires Sound(r, n, cfg) && r.phase.Reporting?
    ensures Sound(Reported(r, cfg), n, cfg)
  {}

  lemma OwnSound(r: Req, views: seq<Counters>, cfg: Config, ev: Event)
    requires Sound(r, |views|, cfg)
    ensures Sound(Own(r, views, cfg, ev), |views|, cfg)
  {
    match ev
    case Pick(_, b, now) => if r.phase.Choosing? { PickedSound(r, views, cfg, b, now); }
    case Give(_, trip) => if r.phase.Holding? { GivenSound(r, |views|, cfg, trip); }
    case Report(_, _) => if r.phase.Reporting? { ReportedSound(r, |views|, cfg); }
    case _ =>
  }

  ghost predicate AllSound(s: System, n: nat, cfg: Config) {
    |s.views| == n && forall id :: id in s.reqs ==> Sound(s.reqs[id], n, cfg)
  }

  lemma NextSound(s: System, n: nat, cfg: Config, ev: Event)
    requires AllSound(s, n, cfg)
    ensures AllSound(Next(s, cfg, ev), n, cfg)
  {
    if !ev.Start? && !ev.Learn? && ev.id in s.reqs { OwnSound(s.reqs[ev.id], s.views, cfg, ev); }
  }

  /** In every interleaving each request tries different backends of the pool, goes on only after
      clean failures while it may, is recorded once when it ends, and answers 503 exactly when it
      attempted nothing. */
  lemma {:induction false} RequestsAreSound(n: nat, cfg: Config, events: seq<Event>)
    ensures AllSound(Run(n, cfg, events), n, cfg)
  {
    if events != [] {
      RequestsAreSound(n, cfg, events[..|events| - 1]);
      NextSound(Run(n, cfg, events[..|events| - 1]), n, cfg, events[|events| - 1]);
    }
  }

  /** At most MaxRetries + 1 attempts, and one for a request with a body. */
  lemma AttemptsBounded(r: Req, n: nat, cfg: Config)
    requires Sound(r, n, cfg) && r.tried != []
    ensures |r.tried| <= (if r.bodyless && cfg.maxRetries > 0 then cfg.maxRetries else 0) + 1
  {
    if |r.tried| > 1 {
      assert F.MayRetry(|r.tried| - 2, r.trips[|r.tried| - 2], r.bodyless, cfg.maxRetries);
    }
  }

  /** Every attempt followed by another was a clean failure of a request without a body that had
      retries left. */
  lemma RetriedOnlyCleanFailures(n: nat, cfg: Config, events: seq<Event>, id: nat, i: nat)
    requires id in Run(n, cfg, events).reqs && i + 1 < |Run(n, cfg, events).reqs[id].tried|
    ensures var r := Run(n, cfg, events).reqs[id];
            i < |r.trips| && r.trips[i].failed && !r.trips[i].wrote && r.bodyless && i + 1 <= cfg.maxRetries
  {
    RequestsAreSound(n, cfg, events);
    var r := Run(n, cfg, events).reqs[id];
    assert Sound(r, n, cfg);
    assert F.MayRetry(i, r.trips[i], r.bodyless, cfg.maxRetries);
  }

  /** The request could go on: it has tried nothing, or its last attempt was a clean failure, it has no
      body and retries left. */
  predicate CouldGoOn(r: Req, cfg: Config) {
    r.tried == [] || (|r.trips| == |r.tried| && r.trips[|r.trips| - 1].failed && !r.trips[|r.trips| - 1].wrote
                      && r.bodyless && |r.tried| <= cfg.maxRetries)
  }

  /** Event j of the run was the request's pick, and found nothing it could pick. */
  ghost predicate FoundNothing(n: nat, cfg: Config, events: seq<Event>, id: nat, tried: seq<nat>, j: nat) {
    && j < |events| && events[j].Pick? && events[j].id == id
    && forall c :: 0 <= c < n && c < |cfg.enabled| && c < |cfg.maxConns| && c !in tried ==>
         Unpickable(Run(n, cfg, events[..j]).views, cfg, c, events[j].now)
  }

  /** Backend c was off, down, ejected or at its limit. */
  ghost predicate Unpickable(views: seq<Counters>, cfg: Config, c: nat, now: int)
    requires c < |cfg.enabled| && c < |cfg.maxConns|
  {
    c < |views| && (!cfg.enabled[c] || !views[c].state.healthy || Ejected(views[c].state, now)
                    || (cfg.maxConns[c] != 0 && views[c].active >= cfg.maxConns[c]))
  }

  /** The step that ends a request which could go on is a pick that finds nothing. */
  lemma EndsByPick(r: Req, views: seq<Counters>, cfg: Config, ev: Event)
    requires Sound(r, |views|, cfg) && !r.phase.Ended? && Own(r, views, cfg, ev).phase.Ended?
    requires CouldGoOn(Own(r, views, cfg, ev), cfg)
    ensures ev.Pick? && Own(r, views, cfg, ev).tried == r.tried
    ensures forall c :: 0 <= c < |views| && c < |cfg.enabled| && c < |cfg.maxConns| && c !in r.tried ==> Unpickable(views, cfg, c, ev.now)
  {
    if ev.Pick? {
      forall c | 0 <= c < |views| && c < |cfg.enabled| && c < |cfg.maxConns| && c !in r.tried ensures Unpickable(views, cfg, c, ev.now) {
        assert !Eligible(views, cfg, r.tried, c, ev.now);
      }
    }
  }

  lemma FoundNothingMore(n: nat, cfg: Config, events: seq<Event>, id: nat, tried: seq<nat>, j: nat)
    requires events != [] && FoundNothing(n, cfg, events[..|events| - 1], id, tried, j)
    ensures FoundNothing(n, cfg, events, id, tried, j)
  {
    assert events[..|events| - 1][..j] == events[..j];
  }

  /** In every interleaving a request that ends while it could go on ends only because nothing it had
      not tried could be picked: so all its retries are used unless the pool runs dry. */
  lemma {:induction false} EndsEarlyOnlyWhenDry(n: nat, cfg: Config, events: seq<Event>, id: nat) returns (j: nat)
    requires id in Run(n, cfg, events).reqs && Run(n, cfg, events).reqs[id].phase.Ended?
    requires CouldGoOn(Run(n, cfg, events).reqs[id], cfg)
    ensures FoundNothing(n, cfg, events, id, Run(n, cfg, events).reqs[id].tried, j)
  {
    var m := |events| - 1;
    var init, ev := events[..m], events[m];
    var s := Run(n, cfg, init);
    RequestsAreSound(n, cfg, init);
    var q := Run(n, cfg, events).reqs[id];
    if id in s.reqs && s.reqs[id].phase.Ended? {
      EndedStays(s, cfg, ev, id);
      j := EndsEarlyOnlyWhenDry(n, cfg, init, id);
      FoundNothingMore(n, cfg, events, id, q.tried, j);
    } else {
      EndsNow(s, n, cfg, ev, id);
      j := m;
      assert events[..m] == init;
    }
  }

  lemma EndedStays(s: System, cfg: Config, ev: Event, id: nat)
    requires id in s.reqs && s.reqs[id].phase.Ended?
    ensures id in Next(s, cfg, ev).reqs && Next(s, cfg, ev).reqs[id] == s.reqs[id]
  {}

  lemma EndsNow(s: System, n: nat, cfg: Config, ev: Event, id: nat)
    requires AllSound(s, n, cfg) && !(id in s.reqs && s.reqs[id].phase.Ended?)
    requires id in Next(s, cfg, ev).reqs && Next(s, cfg, ev).reqs[id].phase.Ended? && CouldGoOn(Next(s, cfg, ev).reqs[id], cfg)
    ensures ev.Pick? && ev.id == id
    ensures forall c :: 0 <= c < n && c < |cfg.enabled| && c < |cfg.maxConns| && c !in Next(s, cfg, ev).reqs[id].tried ==>
              Unpickable(s.views, cfg, c, ev.now)
  {
    if id in s.reqs && !ev.Start? && !ev.Learn? && ev.id == id { EndsByPick(s.reqs[id], s.views, cfg, ev); }
  }

  /** What a step tries was free to be picked: enabled, up, not ejected, below its limit and not tried. */
  lemma PicksWhatIsFree(r: Req, views: seq<Counters>, cfg: Config, ev: Event)
    requires Own(r, views, cfg, ev).tried != r.tried
    ensures ev.Pick? && Own(r, views, cfg, ev).tried == r.tried + [ev.b] && ev.b !in r.tried
    ensures ev.b < |views| && ev.b < |cfg.enabled| && ev.b < |cfg.maxConns| && !Unpickable(views, cfg, ev.b, ev.now)
  {}

  /** How a request ended, by its last attempt. */
  lemma EndsAsItWent(n: nat, cfg: Config, events: seq<Event>, id: nat)
    requires id in Run(n, cfg, events).reqs && Run(n, cfg, events).reqs[id].phase.Ended? && Run(n, cfg, events).reqs[id].tried != []
    ensures var r := Run(n, cfg, events).reqs[id];
            var b := r.tried[|r.tried| - 1];
            && |r.trips| == |r.tried|
            && var trip := r.trips[|r.trips| - 1];
            && (!trip.failed ==> r.phase.end == F.Served(b))
            && (trip.failed && trip.wrote ==> r.phase.end == F.CutShort(b))
            && (trip.failed && !trip.wrote ==> r.phase.end == F.BadGateway(b))
  {
    RequestsAreSound(n, cfg, events);
    assert Sound(Run(n, cfg, events).reqs[id], n, cfg);
  }

  // ----- slots and reports balance -----

  predicate Holds(r: Req, b: nat) { r.phase == Holding(b) }

  /** It gave back a slot on b. */
  predicate Done(r: Req, b: nat) { b in r.tried[..Given(r)] }

  /** Its attempts so far that were reported. */
  function Told(r: Req): nat {
    if (r.phase.Chosen? || r.phase.Holding? || r.phase.Reporting?) && r.tried != [] then |r.tried| - 1 else |r.tried|
  }

  predicate Tells(r: Req, b: nat) { b in r.tried[..Told(r)] }

  function After(r: Req, v: Counters, b: nat, ev: Event, cfg: Config): Counters {
    if Target(r, ev) == Some(b) then Touched(v, ev, r.trips, cfg) else v
  }

  lemma LastIsNew(r: Req, n: nat, cfg: Config)
    requires Sound(r, n, cfg) && r.tried != []
    ensures r.tried[|r.tried| - 1] !in r.tried[..|r.tried| - 1]
    ensures forall b :: b in r.tried <==> b in r.tried[..|r.tried| - 1] || b == r.tried[|r.tried| - 1]
    ensures r.tried[..|r.tried|] == r.tried
  {
    var k := |r.tried| - 1;
    assert r.tried == r.tried[..k] + [r.tried[k]];
    forall i | 0 <= i < k ensures r.tried[i] != r.tried[k] { assert F.Differ(r.tried, i, k); }
  }

  lemma PickBalances(r: Req, views: seq<Counters>, cfg: Config, b: nat, c: nat, now: int)
    requires Sound(r, |views|, cfg) && r.phase.Choosing?
    ensures var q := Picked(r, views, cfg, c, now);
            Holds(q, b) == Holds(r, b) && Done(q, b) == Done(r, b) && Tells(q, b) == Tells(r, b)
  {
    assert (r.tried + [c])[..|r.tried|] == r.tried[..|r.tried|];
  }

  lemma TakeBalances(r: Req, n: nat, cfg: Config, b: nat)
    requires Sound(r, n, cfg) && r.phase.Chosen?
    ensures var q := r.(phase := Holding(r.phase.b));
            && Holds(q, b) == (b == r.phase.b) && !Holds(r, b) && Done(q, b) == Done(r, b) && Tells(q, b) == Tells(r, b)
  {}

  lemma GiveBalances(r: Req, n: nat, cfg: Config, b: nat, trip: F.Trip)
    requires Sound(r, n, cfg) && r.phase.Holding?
    ensures var q := r.(phase := Reporting(r.phase.b), trips := r.trips + [trip]);
            && !Holds(q, b) && Holds(r, b) == (b == r.phase.b)
            && Bit(Done(q, b)) == Bit(Done(r, b)) + Bit(b == r.phase.b) && Tells(q, b) == Tells(r, b)
  {
    LastIsNew(r, n, cfg);
  }

  lemma ReportBalances(r: Req, n: nat, cfg: Config, b: nat)
    requires Sound(r, n, cfg) && r.phase.Reporting?
    ensures var q := Reported(r, cfg);
            && Holds(q, b) == Holds(r, b) && Done(q, b) == Done(r, b)
            && Bit(Tells(q, b)) == Bit(Tells(r, b)) + Bit(b == r.phase.b)
  {
    LastIsNew(r, n, cfg);
  }

  /** From r to q the counters of backend b moved from v to w by what changed about the request. */
  ghost predicate Balanced(r: Req, q: Req, v: Counters, w: Counters, b: nat) {
    && w.active - v.active == Bit(Holds(q, b)) - Bit(Holds(r, b))
    && w.total - v.total == Bit(Done(q, b)) - Bit(Done(r, b))
    && w.reports - v.reports == Bit(Tells(q, b)) - Bit(Tells(r, b))
  }

  lemma SlotBalances(r: Req, views: seq<Counters>, cfg: Config, ev: Event, b: nat, v: Counters)
    requires Sound(r, |views|, cfg) && (ev.Take? || ev.Pick?)
    ensures Balanced(r, Own(r, views, cfg, ev), v, After(r, v, b, ev, cfg), b)
  {
    if ev.Pick? && r.phase.Choosing? { PickBalances(r, views, cfg, b, ev.b, ev.now); }
    if ev.Take? && r.phase.Chosen? { TakeBalances(r, |views|, cfg, b); }
  }

  lemma EndBalances(r: Req, views: seq<Counters>, cfg: Config, ev: Event, b: nat, v: Counters)
    requires Sound(r, |views|, cfg) && (ev.Give? || ev.Report?)
    ensures Balanced(r, Own(r, views, cfg, ev), v, After(r, v, b, ev, cfg), b)
  {
    if ev.Give? && r.phase.Holding? { GiveBalances(r, |views|, cfg, b, ev.trip); }
    if ev.Report? && r.phase.Reporting? { ReportBalances(r, |views|, cfg, b); }
  }

  /** A request's step moves its backend's counters by what changed about the request. */
  lemma OwnBalances(r: Req, views: seq<Counters>, cfg: Config, ev: Event, b: nat, v: Counters)
    requires Sound(r, |views|, cfg) && !ev.Start? && !ev.Learn?
    ensures Balanced(r, Own(r, views, cfg, ev), v, After(r, v, b, ev, cfg), b)
  {
    if ev.Take? || ev.Pick? { SlotBalances(r, views, cfg, ev, b, v); } else { EndBalances(r, views, cfg, ev, b, v); }
  }

  datatype Stage = Using | Finished | Heard | Tried

  /** The request stands in this relation to backend b. */
  predicate Is(r: Req, stage: Stage, b: nat) {
    match stage
    case Using => Holds(r, b)
    case Finished => Done(r, b)
    case Heard => Tells(r, b)
    case Tried => b in r.tried
  }

  ghost function Those(reqs: map<nat, Req>, stage: Stage, b: nat): set<nat> {
    set id | id in reqs && Is(reqs[id], stage, b)
  }

  lemma ThoseUpdate(reqs: map<nat, Req>, id: nat, q: Req, stage: Stage, b: nat)
    ensures |Those(reqs[id := q], stage, b)| ==
            |Those(reqs, stage, b)| + Bit(Is(q, stage, b)) - Bit(id in reqs && Is(reqs[id], stage, b))
  {
    OneDiffers(Those(reqs, stage, b), Those(reqs[id := q], stage, b), id);
  }

  /** Backend b's counters: slots in use are the requests between taking and giving back, finished
      requests and reports those that gave back a slot on it and reported it. */
  ghost predicate Booked(reqs: map<nat, Req>, v: Counters, b: nat) {
    && v.active == |Those(reqs, Using, b)|
    && v.total == |Those(reqs, Finished, b)|
    && v.reports == |Those(reqs, Heard, b)|
  }

  lemma BookedUpdate(reqs: map<nat, Req>, id: nat, q: Req, v: Counters, w: Counters, b: nat)
    requires Booked(reqs, v, b)
    requires w.active - v.active == Bit(Holds(q, b)) - Bit(id in reqs && Holds(reqs[id], b))
    requires w.total - v.total == Bit(Done(q, b)) - Bit(id in reqs && Done(reqs[id], b))
    requires w.reports - v.reports == Bit(Tells(q, b)) - Bit(id in reqs && Tells(reqs[id], b))
    ensures Booked(reqs[id := q], w, b)
  {
    ThoseUpdate(reqs, id, q, Using, b);
    ThoseUpdate(reqs, id, q, Finished, b);
    ThoseUpdate(reqs, id, q, Heard, b);
  }

  ghost predicate AllBooked(s: System) {
    forall b :: 0 <= b < |s.views| ==> Booked(s.reqs, s.views[b], b)
  }

  lemma NextBooked(s: System, n: nat, cfg: Config, ev: Event, b: nat)
    requires AllSound(s, n, cfg) && AllBooked(s) && b < n
    ensures Booked(Next(s, cfg, ev).reqs, Next(s, cfg, ev).views[b], b)
  {
    assert Booked(s.reqs, s.views[b], b);
    match ev
    case Start(id, bodyless) =>
      if id !in s.reqs { BookedUpdate(s.reqs, id, Req(bodyless, [], [], Choosing, 0), s.views[b], s.views[b], b); }
    case Learn(_, _) =>
    case _ => if ev.id in s.reqs { OwnBooked(s, n, cfg, ev, b); }
  }

  lemma OwnBooked(s: System, n: nat, cfg: Config, ev: Event, b: nat)
    requires AllSound(s, n, cfg) && b < n && Booked(s.reqs, s.views[b], b)
    requires !ev.Start? && !ev.Learn? && ev.id in s.reqs
    ensures Booked(Next(s, cfg, ev).reqs, Next(s, cfg, ev).views[b], b)
  {
    var r := s.reqs[ev.id];
    OwnBalances(r, s.views, cfg, ev, b, s.views[b]);
    BookedUpdate(s.reqs, ev.id, Own(r, s.views, cfg, ev), s.views[b], After(r, s.views[b], b, ev, cfg), b);
    NextView(s, n, cfg, ev, b);
  }

  lemma NextView(s: System, n: nat, cfg: Config, ev: Event, b: nat)
    requires AllSound(s, n, cfg) && b < n && !ev.Start? && !ev.Learn? && ev.id in s.reqs
    ensures |Next(s, cfg, ev).views| == n && Next(s, cfg, ev).views[b] == After(s.reqs[ev.id], s.views[b], b, ev, cfg)
    ensures Next(s, cfg, ev).reqs == s.reqs[ev.id := Own(s.reqs[ev.id], s.views, cfg, ev)]
  {}

  lemma NobodyYet(b: nat)
    ensures Booked(map[], Counters(NEW, 0, 0, 0), b)
  {
    var none: map<nat, Req> := map[];
    assert Those(none, Using, b) == {} && Those(none, Finished, b) == {} && Those(none, Heard, b) == {};
  }

  /** In every interleaving, the slots in use on a backend are exactly the requests that took one
      and have not given it back, and every slot given back was counted and reported once. */
  lemma {:induction false} SlotsBalance(n: nat, cfg: Config, events: seq<Event>)
    ensures |Run(n, cfg, events).views| == n && AllBooked(Run(n, cfg, events))
  {
    if events == [] {
      forall b | 0 <= b < n ensures Booked(Fresh(n).reqs, Fresh(n).views[b], b) { NobodyYet(b); }
    } else {
      var init, ev := events[..|events| - 1], events[|events| - 1];
      SlotsBalance(n, cfg, init);
      RequestsAreSound(n, cfg, init);
      var s := Run(n, cfg, init);
      NextSound(s, n, cfg, ev);
      forall b | 0 <= b < n ensures Booked(Next(s, cfg, ev).reqs, Next(s, cfg, ev).views[b], b) {
        NextBooked(s, n, cfg, ev, b);
      }
    }
  }

  /** Once every request has ended no slot is in use, and each backend has finished and heard about
      exactly as many requests as tried it. */
  lemma AllGivenBack(n: nat, cfg: Config, events: seq<Event>, b: nat)
    requires b < n && forall id :: id in Run(n, cfg, events).reqs ==> Run(n, cfg, events).reqs[id].phase.Ended?
    ensures var s := Run(n, cfg, events);
            && |s.views| == n && s.views[b].active == 0
            && s.views[b].total == s.views[b].reports == |Those(s.reqs, Tried, b)|
  {
    SlotsBalance(n, cfg, events);
    var s := Run(n, cfg, events);
    assert Booked(s.reqs, s.views[b], b);
    assert Those(s.reqs, Using, b) == {};
    forall id | id in s.reqs
      ensures Done(s.reqs[id], b) == (b in s.reqs[id].tried) == Tells(s.reqs[id], b)
    {
      var r := s.reqs[id];
      assert r.tried[..|r.tried|] == r.tried;
    }
    assert Those(s.reqs, Finished, b) == Those(s.reqs, Tried, b);
    assert Those(s.reqs, Heard, b) == Those(s.reqs, Tried, b);
  }

  // ----- every request ends -----

  /** Steps a request still has before it at most. */
  function StepsLeft(r: Req, cfg: Config): int {
    var most := if cfg.maxRetries > 0 then cfg.maxRetries + 1 else 1;
    match r.phase
    case Choosing => 4 * (most - |r.tried|) + 1
    case Chosen(_) => 4 * (most - |r.tried|) + 4
    case Holding(_) => 4 * (most - |r.tried|) + 3
    case Reporting(_) => 4 * (most - |r.tried|) + 2
    case Ended(_) => 0
  }

  lemma StepsNonNegative(r: Req, n: nat, cfg: Config)
    requires Sound(r, n, cfg)
    ensures StepsLeft(r, cfg) >= 0 && (StepsLeft(r, cfg) == 0 <==> r.phase.Ended?)
  {
    if r.tried != [] { AttemptsBounded(r, n, cfg); }
  }

  /** Whatever the others do, each step a request takes brings its end nearer, and it has always
      one to take until it has ended. */
  lemma StepsBringTheEnd(r: Req, views: seq<Counters>, cfg: Config, ev: Event)
    requires Sound(r, |views|, cfg)
    ensures Own(r, views, cfg, ev) == r || StepsLeft(Own(r, views, cfg, ev), cfg) < StepsLeft(r, cfg)
  {
    OwnSound(r, views, cfg, ev);
    StepsNonNegative(r, |views|, cfg);
  }

  lemma NeverStuck(r: Req, views: seq<Counters>, cfg: Config, id: nat, trip: F.Trip, now: int) returns (ev: Event)
    requires Sound(r, |views|, cfg) && !r.phase.Ended?
    ensures Own(r, views, cfg, ev) != r
  {
    match r.phase
    case Choosing =>
      if c :| Eligible(views, cfg, r.tried, c, now) {
        ev := Pick(id, c, now);
      } else {
        ev := Pick(id, 0, now);
      }
    case Chosen(_) => ev := Take(id);
    case Holding(_) => ev := Give(id, trip);
    case Reporting(_) => ev := Report(id, now);
  }
}

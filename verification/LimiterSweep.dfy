/** Sweeping idle records away changes no answer exactly when an idle record has had time to
    refill: when the burst is at most what the rate earns in the idle period, less twice what
    clock readings may be out of order.
 */
module LimiterSweep {
  import opened Basics
  import opened LimiterRecord

  function NoSweeps(es: seq<Event>): seq<Event> {
    if es == [] then []
    else NoSweeps(es[..|es| - 1]) + (if es[|es| - 1].Sweep? then [] else [es[|es| - 1]])
  }

  predicate Timed(e: Event) { e.Acquire? || e.Sweep? }

  /** No reading falls more than s behind an earlier one. */
  ghost predicate Skewed(es: seq<Event>, s: real) {
    forall i, j :: 0 <= i < j < |es| && Timed(es[i]) && Timed(es[j]) ==> Behind(es[i], es[j], s)
  }

  predicate Behind(x: Event, y: Event, s: real)
    requires Timed(x) && Timed(y)
  {
    y.now >= x.now - s
  }

  /** Fixed rules, readings at most s out of order, and a table that never fills up. */
  ghost predicate Ordinary(es: seq<Event>, rules: Rules, s: real) {
    && Skewed(es, s) && DistinctIds(es)
    && forall i :: 0 <= i < |es| ==> !es[i].Evict? && (es[i].Acquire? ==> es[i].rules == rules)
  }

  /** The bucket refills within the idle period less twice the skew, or is not used at all. */
  predicate Refills(rules: Rules, s: real) {
    rules.rps <= 0 || Max(rules.burst, rules.rps) as real <= Earned(rules, 600.0 - 2.0 * s)
  }

  lemma RefillsEarns(rules: Rules, s: real)
    ensures Refills(rules, s) <==> rules.rps <= 0 || BurstOf(rules) as real <= Earned(rules, IDLE_AFTER - s - s)
  {
    assert IDLE_AFTER - s - s == 600.0 - 2.0 * s;
  }

  // ----- swept and unswept runs side by side -----

  ghost predicate Alike(a: Client, b: Client, rules: Rules) {
    a.active == b.active && a.seen == b.seen && (rules.rps > 0 ==> a == b)
  }

  /** Readings up to t, at most skew out of order, left the record so. */
  ghost predicate Timely(c: Client, rules: Rules, t: real, skew: real) {
    c.seen <= t && (rules.rps > 0 ==> c.tokens >= 0.0 && c.last <= t && c.last <= c.seen + skew)
  }

  /** s, with sweeps, and u, without, when no reading was later than t. */
  ghost predicate Near(s: Rec, u: Rec, rules: Rules, t: real, skew: real) {
    && s.open == u.open
    && (u.client.Some? ==> Timely(u.client.value, rules, t, skew))
    && match (s.client, u.client)
       case (None, None) => true
       case (Some(a), Some(b)) => Alike(a, b, rules)
       case (None, Some(b)) => b.active == 0 && b.seen < t - IDLE_AFTER
       case (Some(_), None) => false
  }

  function Later(t: real, e: Event): real { if Timed(e) && e.now > t then e.now else t }

  lemma FullAgain(b: Client, rules: Rules, t: real, skew: real, now: real)
    requires rules.rps > 0 && Refills(rules, skew) && Timely(b, rules, t, skew)
    requires b.seen < t - IDLE_AFTER && now >= t - skew
    ensures Refilled(b, rules, now) == b.(tokens := BurstOf(rules) as real, last := now)
  {
    RefillsEarns(rules, skew);
    EarnedGrows(rules, IDLE_AFTER - skew - skew, now - b.last);
    if IDLE_AFTER - skew - skew <= 0.0 { EarnedGrows(rules, IDLE_AFTER - skew - skew, 0.0); }
  }

  lemma JudgedTimely(c: Client, rules: Rules, t: real, skew: real, now: real)
    requires rules.rps > 0 && c.tokens >= 0.0 && c.last <= t && now >= t - skew && skew >= 0.0 && c.seen == now
    ensures Timely(Judged(c, rules, now).0, rules, if now > t then now else t, skew)
  {
    if now > c.last { EarnedNonNeg(rules, now - c.last); }
  }

  lemma AcquireNear(s: Rec, u: Rec, rules: Rules, t: real, skew: real, id: nat, now: real)
    requires Near(s, u, rules, t, skew) && Refills(rules, skew) && skew >= 0.0 && now >= t - skew
    ensures Answer(s, rules, now) == Answer(u, rules, now)
    ensures Near(Step(s, Acquire(id, rules, now)), Step(u, Acquire(id, rules, now)), rules, if now > t then now else t, skew)
  {
    var b := Touched(u, rules, now);
    if rules.rps > 0 {
      JudgedTimely(b, rules, if u.client.None? && now > t then now else t, skew, now);
      if s.client.None? && u.client.Some? {
        FullAgain(u.client.value, rules, t, skew, now);
      }
    }
  }

  lemma StepNear(s: Rec, u: Rec, rules: Rules, t: real, skew: real, e: Event)
    requires Near(s, u, rules, t, skew) && Refills(rules, skew) && skew >= 0.0
    requires !e.Evict? && (e.Acquire? ==> e.rules == rules)
    requires Timed(e) ==> e.now >= t - skew
    ensures Near(Step(s, e), if e.Sweep? then u else Step(u, e), rules, Later(t, e), skew)
    ensures e.Acquire? ==> Answer(s, rules, e.now) == Answer(u, rules, e.now)
  {
    if e.Acquire? { AcquireNear(s, u, rules, t, skew, e.id, e.now); }
  }

  lemma NearLater(s: Rec, u: Rec, rules: Rules, t: real, skew: real, now: real)
    requires Near(s, u, rules, t, skew) && t <= now
    ensures Near(s, u, rules, now, skew)
  {}

  /** No reading of the run is later than t. */
  ghost predicate Until(es: seq<Event>, t: real) {
    forall i :: 0 <= i < |es| && Timed(es[i]) ==> es[i].now <= t
  }

  /** A bound on the readings before the last event that the last one is at most s behind. */
  lemma UntilLast(es: seq<Event>, s: real, t: real) returns (at: real)
    requires es != [] && Skewed(es, s) && Until(es, t)
    ensures at <= t && Until(es[..|es| - 1], at) && (Timed(es[|es| - 1]) ==> es[|es| - 1].now >= at - s)
  {
    var n := |es| - 1;
    at := if Timed(es[n]) && es[n].now + s < t then es[n].now + s else t;
    forall i | 0 <= i < n && Timed(es[i]) ensures es[..n][i].now <= at {
      if Timed(es[n]) { assert Behind(es[i], es[n], s); }
    }
  }

  lemma OrdinaryPrefix(es: seq<Event>, rules: Rules, s: real)
    requires es != [] && Ordinary(es, rules, s)
    ensures Ordinary(es[..|es| - 1], rules, s)
  {
    var init := es[..|es| - 1];
    forall i, j | 0 <= i < j < |init| && Timed(init[i]) && Timed(init[j]) ensures Behind(init[i], init[j], s) {
      assert Behind(es[i], es[j], s);
    }
  }

  lemma {:induction false} SweptNear(es: seq<Event>, rules: Rules, s: real, t: real)
    requires s >= 0.0 && Ordinary(es, rules, s) && Refills(rules, s) && Until(es, t)
    ensures Near(Run(NONE, es), Run(NONE, NoSweeps(es)), rules, t, s)
  {
    if es != [] {
      var init, e := es[..|es| - 1], es[|es| - 1];
      var at := UntilLast(es, s, t);
      OrdinaryPrefix(es, rules, s);
      SweptNear(init, rules, s, at);
      StepNear(Run(NONE, init), Run(NONE, NoSweeps(init)), rules, at, s, e);
      NearMore(es);
      NearLater(Run(NONE, es), Run(NONE, NoSweeps(es)), rules, Later(at, e), s, t);
    }
  }

  lemma NearMore(es: seq<Event>)
    requires es != []
    ensures var init, e := es[..|es| - 1], es[|es| - 1];
            Run(NONE, NoSweeps(es)) == if e.Sweep? then Run(NONE, NoSweeps(init)) else Step(Run(NONE, NoSweeps(init)), e)
  {
    var init, e := es[..|es| - 1], es[|es| - 1];
    if e.Sweep? {
      assert NoSweeps(es) == NoSweeps(init);
    } else {
      OneMore(NONE, NoSweeps(init), e);
    }
  }

  /** The last answer of a run is the one without sweeps. */
  lemma LastAnswer(es: seq<Event>, rules: Rules, s: real)
    requires s >= 0.0 && Ordinary(es, rules, s) && Refills(rules, s) && es != [] && es[|es| - 1].Acquire?
    ensures var init, e := es[..|es| - 1], es[|es| - 1];
            Answer(Run(NONE, init), e.rules, e.now) == Answer(Run(NONE, NoSweeps(init)), e.rules, e.now)
  {
    var init, e := es[..|es| - 1], es[|es| - 1];
    var t := Latest(es);
    var at := UntilLast(es, s, t);
    OrdinaryPrefix(es, rules, s);
    SweptNear(init, rules, s, at);
    StepNear(Run(NONE, init), Run(NONE, NoSweeps(init)), rules, at, s, e);
  }

  lemma {:induction false} Latest(es: seq<Event>) returns (t: real)
    ensures Until(es, t)
  {
    t := 0.0;
    if es != [] {
      t := Latest(es[..|es| - 1]);
      var e := es[|es| - 1];
      if Timed(e) && e.now > t { t := e.now; }
    }
  }

  /** Sweeps are invisible when the bucket refills within the idle period less twice the skew. */
  lemma {:induction false} SweepsInvisible(es: seq<Event>, rules: Rules, s: real)
    requires s >= 0.0 && Ordinary(es, rules, s) && Refills(rules, s)
    ensures Answers(NONE, es) == Answers(NONE, NoSweeps(es))
  {
    if es != [] {
      var init, e := es[..|es| - 1], es[|es| - 1];
      OrdinaryPrefix(es, rules, s);
      SweepsInvisible(init, rules, s);
      if e.Acquire? { LastAnswer(es, rules, s); }
      if e.Sweep? {
        assert NoSweeps(es) == NoSweeps(init) && Answers(NONE, es) == Answers(NONE, init);
      } else {
        OneMore(NONE, NoSweeps(init), e);
      }
    }
  }

  // ----- and visible otherwise -----

  /** n requests at time t, each released before the next, with ids from `base`. */
  function Pairs(rules: Rules, t: real, n: nat, base: nat): seq<Event> {
    if n == 0 then []
    else Pairs(rules, t, n - 1, base) + [Acquire(base + n - 1, rules, t)] + [Release(base + n - 1)]
  }

  lemma {:induction false} RunAppend(r: Rec, a: seq<Event>, b: seq<Event>)
    ensures Run(r, a + b) == Run(Run(r, a), b)
    ensures Answers(r, a + b) == Answers(r, a) + Answers(Run(r, a), b)
  {
    if b == [] {
      assert a + b == a;
    } else {
      var init, e := b[..|b| - 1], b[|b| - 1];
      RunAppend(r, a, init);
      assert a + b == (a + init) + [e];
      OneMore(r, a + init, e);
    }
  }

  lemma {:induction false} GrantedAppend(a: seq<Verdict>, b: seq<Verdict>)
    ensures Granted(a + b) == Granted(a) + Granted(b)
  {
    if b == [] {
      assert a + b == a;
    } else {
      GrantedAppend(a, b[..|b| - 1]);
      assert (a + b)[..|a + b| - 1] == a + b[..|b| - 1];
    }
  }

  /** The record after n of a burst's requests came and went at time t. */
  function Spent(rules: Rules, t: real, n: nat): Rec {
    Rec(if n == 0 then None else Some(Client((BurstOf(rules) - n) as real, t, 0, t)), {})
  }

  lemma {:induction false} BurstSpends(rules: Rules, t: real, n: nat, base: nat)
    requires rules.rps > 0 && n <= BurstOf(rules)
    ensures Run(NONE, Pairs(rules, t, n, base)) == Spent(rules, t, n)
  {
    if n > 0 {
      BurstSpends(rules, t, n - 1, base);
      SpendsMore(Pairs(rules, t, n - 1, base), rules, t, n, base + n - 1);
    }
  }

  lemma SpendsMore(pre: seq<Event>, rules: Rules, t: real, n: nat, id: nat)
    requires rules.rps > 0 && 0 < n <= BurstOf(rules) && Run(NONE, pre) == Spent(rules, t, n - 1)
    ensures Run(NONE, pre + [Acquire(id, rules, t)] + [Release(id)]) == Spent(rules, t, n)
    ensures Answers(NONE, pre + [Acquire(id, rules, t)] + [Release(id)]) == Answers(NONE, pre) + [Admitted]
  {
    PairStep(rules, t, n, id);
    PairMore(NONE, pre, rules, t, id);
  }

  lemma BurstAnswer(rules: Rules, t: real, n: nat, base: nat)
    requires rules.rps > 0 && 0 < n <= BurstOf(rules)
    ensures Answers(NONE, Pairs(rules, t, n, base)) == Answers(NONE, Pairs(rules, t, n - 1, base)) + [Admitted]
  {
    BurstSpends(rules, t, n - 1, base);
    SpendsMore(Pairs(rules, t, n - 1, base), rules, t, n, base + n - 1);
  }

  /** A fresh bucket admits as many requests at once as it holds. */
  lemma {:induction false} FreshBurst(rules: Rules, t: real, n: nat, base: nat)
    requires rules.rps > 0 && n <= BurstOf(rules)
    ensures Granted(Answers(NONE, Pairs(rules, t, n, base))) == n
  {
    if n > 0 {
      FreshBurst(rules, t, n - 1, base);
      BurstAnswer(rules, t, n, base);
      GrantedMore(Answers(NONE, Pairs(rules, t, n - 1, base)), Admitted);
    }
  }

  lemma PairMore(r: Rec, pre: seq<Event>, rules: Rules, t: real, id: nat)
    ensures var es := pre + [Acquire(id, rules, t)] + [Release(id)];
            && Run(r, es) == Step(Step(Run(r, pre), Acquire(id, rules, t)), Release(id))
            && Answers(r, es) == Answers(r, pre) + [Answer(Run(r, pre), rules, t)]
  {
    OneMore(r, pre, Acquire(id, rules, t));
    OneMore(r, pre + [Acquire(id, rules, t)], Release(id));
    var vs := Answers(r, pre) + [Answer(Run(r, pre), rules, t)];
    assert vs + [] == vs;
  }

  lemma GrantedMore(vs: seq<Verdict>, v: Verdict)
    ensures Granted(vs + [v]) == Granted(vs) + if v.Admitted? then 1 else 0
  {
    assert (vs + [v])[..|vs|] == vs;
  }

  lemma PairStep(rules: Rules, t: real, n: nat, id: nat)
    requires rules.rps > 0 && 0 < n <= BurstOf(rules)
    ensures Answer(Spent(rules, t, n - 1), rules, t) == Admitted
    ensures Step(Step(Spent(rules, t, n - 1), Acquire(id, rules, t)), Release(id)) == Spent(rules, t, n)
  {
    var s := Step(Spent(rules, t, n - 1), Acquire(id, rules, t));
    assert s == Rec(Some(Client((BurstOf(rules) - n) as real, t, 1, t)), {id});
    assert {id} - {id} == {};
  }

  /** e is an Acquire at t with an id from lo up to hi, or a Release. */
  predicate PairEvent(e: Event, rules: Rules, t: real, lo: nat, hi: nat) {
    (e.Acquire? && e.rules == rules && e.now == t && lo <= e.id < hi) || e.Release?
  }

  ghost predicate PairEvents(es: seq<Event>, rules: Rules, t: real, lo: nat, hi: nat) {
    DistinctIds(es) && forall i :: 0 <= i < |es| ==> PairEvent(es[i], rules, t, lo, hi)
  }

  lemma {:induction false} PairsShape(rules: Rules, t: real, n: nat, base: nat)
    ensures PairEvents(Pairs(rules, t, n, base), rules, t, base, base + n)
  {
    if n > 0 {
      PairsShape(rules, t, n - 1, base);
      var pre := Pairs(rules, t, n - 1, base);
      var es := Pairs(rules, t, n, base);
      assert es == pre + [Acquire(base + n - 1, rules, t), Release(base + n - 1)];
      forall i | 0 <= i < |es|
        ensures PairEvent(es[i], rules, t, base, base + n)
        ensures i < |pre| ==> PairEvent(es[i], rules, t, base, base + n - 1)
      {
        if i < |pre| { assert es[i] == pre[i] && PairEvent(pre[i], rules, t, base, base + n - 1); }
      }
      forall i, j | 0 <= i < j < |es| && es[i].Acquire? && es[j].Acquire? ensures es[i].id != es[j].id {
        if j < |pre| { assert es[i] == pre[i] && es[j] == pre[j]; }
      }
    }
  }

  lemma {:induction false} NothingToSweep(a: seq<Event>, b: seq<Event>)
    requires forall i :: 0 <= i < |b| ==> !b[i].Sweep?
    ensures NoSweeps(a + b) == NoSweeps(a) + b
  {
    if b == [] {
      assert a + b == a && NoSweeps(a) + b == NoSweeps(a);
    } else {
      var n := |b| - 1;
      NothingToSweep(a, b[..n]);
      assert (a + b)[..|a + b| - 1] == a + b[..n];
      assert NoSweeps(a) + b == NoSweeps(a) + b[..n] + [b[n]];
    }
  }

  /** A burst at 0, one request that reads the clock s earlier, a sweep, another burst. */
  function TwoBursts(rules: Rules, s: real, sweep: real, t: real): seq<Event>
    requires rules.rps > 0
  {
    First(rules, s) + [Sweep(sweep)] + Second(rules, t)
  }

  function First(rules: Rules, s: real): seq<Event>
    requires rules.rps > 0
  {
    Pairs(rules, 0.0, BurstOf(rules), 0) + [Acquire(BurstOf(rules), rules, 0.0 - s)]
  }

  function Second(rules: Rules, t: real): seq<Event>
    requires rules.rps > 0
  {
    Pairs(rules, t, BurstOf(rules), BurstOf(rules) + 1)
  }

  /** e is an Acquire by these rules that reads lo or hi, with an id from a up to b, or a Release. */
  predicate FromTo(e: Event, rules: Rules, lo: real, hi: real, a: nat, b: nat) {
    e.Release? || (e.Acquire? && e.rules == rules && (e.now == lo || e.now == hi) && a <= e.id < b)
  }

  lemma FirstShape(rules: Rules, s: real)
    requires rules.rps > 0
    ensures DistinctIds(First(rules, s))
    ensures forall i :: 0 <= i < |First(rules, s)| ==> FromTo(First(rules, s)[i], rules, 0.0, 0.0 - s, 0, BurstOf(rules) + 1)
    ensures forall i :: 0 <= i < |First(rules, s)| - 1 && First(rules, s)[i].Acquire? ==> First(rules, s)[i].now == 0.0
  {
    var B: nat := BurstOf(rules);
    var p, es := Pairs(rules, 0.0, B, 0), First(rules, s);
    PairsShape(rules, 0.0, B, 0);
    forall i | 0 <= i < |p| ensures es[i] == p[i] && PairEvent(es[i], rules, 0.0, 0, B) {
      assert PairEvent(p[i], rules, 0.0, 0, B);
    }
    forall i, j | 0 <= i < j < |es| && es[i].Acquire? && es[j].Acquire? ensures es[i].id != es[j].id {
      if j < |p| { assert es[i] == p[i] && es[j] == p[j]; }
    }
  }

  lemma SecondShape(rules: Rules, t: real)
    requires rules.rps > 0
    ensures DistinctIds(Second(rules, t))
    ensures forall i :: 0 <= i < |Second(rules, t)| ==>
              FromTo(Second(rules, t)[i], rules, t, t, BurstOf(rules) + 1, BurstOf(rules) + 1 + BurstOf(rules))
  {
    var B: nat := BurstOf(rules);
    PairsShape(rules, t, B, B + 1);
    var q := Second(rules, t);
    forall i | 0 <= i < |q| ensures FromTo(q[i], rules, t, t, B + 1, B + 1 + B) {
      assert PairEvent(q[i], rules, t, B + 1, B + 1 + B);
    }
  }

  /** Where each event of the run comes from. */
  lemma TwoBurstsAt(rules: Rules, s: real, sweep: real, t: real, i: nat)
    requires rules.rps > 0 && i < |TwoBursts(rules, s, sweep, t)|
    ensures var p, q, e := First(rules, s), Second(rules, t), TwoBursts(rules, s, sweep, t)[i];
            var B: nat := BurstOf(rules);
            if i < |p| then e == p[i] && FromTo(e, rules, 0.0, 0.0 - s, 0, B + 1) && (i < |p| - 1 && e.Acquire? ==> e.now == 0.0)
            else if i == |p| then e == Sweep(sweep)
            else e == q[i - |p| - 1] && FromTo(e, rules, t, t, B + 1, B + 1 + B)
  {
    FirstShape(rules, s);
    SecondShape(rules, t);
  }

  lemma TwoBurstsOrdinary(rules: Rules, s: real, sweep: real, t: real)
    requires rules.rps > 0 && s >= 0.0 && sweep >= 0.0 - s && t >= 0.0 - s && t >= sweep - s
    ensures Ordinary(TwoBursts(rules, s, sweep, t), rules, s)
  {
    var p, q, es := First(rules, s), Second(rules, t), TwoBursts(rules, s, sweep, t);
    FirstShape(rules, s);
    SecondShape(rules, t);
    forall i | 0 <= i < |es| ensures !es[i].Evict? && (es[i].Acquire? ==> es[i].rules == rules) { TwoBurstsAt(rules, s, sweep, t, i); }
    forall i, j | 0 <= i < j < |es| && Timed(es[i]) && Timed(es[j]) ensures Behind(es[i], es[j], s) {
      TwoBurstsAt(rules, s, sweep, t, i);
      TwoBurstsAt(rules, s, sweep, t, j);
    }
    forall i, j | 0 <= i < j < |es| && es[i].Acquire? && es[j].Acquire? ensures es[i].id != es[j].id {
      TwoBurstsAt(rules, s, sweep, t, i);
      TwoBurstsAt(rules, s, sweep, t, j);
    }
  }

  /** The record after a burst at 0 and a refused request that read -s. */
  function Drained(s: real): Rec { Rec(Some(Client(0.0, 0.0, 0, 0.0 - s)), {}) }

  lemma FirstRuns(rules: Rules, s: real)
    requires rules.rps > 0 && s >= 0.0
    ensures Run(NONE, First(rules, s)) == Drained(s)
    ensures Granted(Answers(NONE, First(rules, s))) == BurstOf(rules)
  {
    var B: nat := BurstOf(rules);
    var p, e := Pairs(rules, 0.0, B, 0), Acquire(B, rules, 0.0 - s);
    FreshBurst(rules, 0.0, B, 0);
    BurstSpends(rules, 0.0, B, 0);
    OneMore(NONE, p, e);
    assert !Answer(Spent(rules, 0.0, B), rules, 0.0 - s).Admitted?;
    GrantedMore(Answers(NONE, p), Answer(Spent(rules, 0.0, B), rules, 0.0 - s));
  }

  /** Swept in between, both bursts are admitted in full. */
  lemma SweptAdmitsAll(rules: Rules, s: real, sweep: real, t: real)
    requires rules.rps > 0 && s >= 0.0 && sweep > IDLE_AFTER - s
    ensures Granted(Answers(NONE, TwoBursts(rules, s, sweep, t))) == 2 * BurstOf(rules)
  {
    var p := First(rules, s);
    FirstRuns(rules, s);
    SweptAway(p, s, sweep);
    SecondAdmitted(p + [Sweep(sweep)], rules, t);
  }

  lemma SecondAdmitted(p: seq<Event>, rules: Rules, t: real)
    requires rules.rps > 0 && Run(NONE, p) == NONE
    ensures Granted(Answers(NONE, p + Second(rules, t))) == Granted(Answers(NONE, p)) + BurstOf(rules)
  {
    SecondGrantsAll(rules, t);
    AfterNone(p, Second(rules, t));
  }

  lemma SecondGrantsAll(rules: Rules, t: real)
    requires rules.rps > 0
    ensures Granted(Answers(NONE, Second(rules, t))) == BurstOf(rules)
  {
    FreshBurst(rules, t, BurstOf(rules), BurstOf(rules) + 1);
  }

  lemma AfterNone(p: seq<Event>, q: seq<Event>)
    requires Run(NONE, p) == NONE
    ensures Granted(Answers(NONE, p + q)) == Granted(Answers(NONE, p)) + Granted(Answers(NONE, q))
  {
    RunAppend(NONE, p, q);
    GrantedAppend(Answers(NONE, p), Answers(NONE, q));
  }

  lemma SweptAway(p: seq<Event>, s: real, sweep: real)
    requires Run(NONE, p) == Drained(s) && sweep > IDLE_AFTER - s
    ensures Run(NONE, p + [Sweep(sweep)]) == NONE && Answers(NONE, p + [Sweep(sweep)]) == Answers(NONE, p)
  {
    OneMore(NONE, p, Sweep(sweep));
  }

  /** What a record holds for a request at t. */
  function Worth(r: Rec, rules: Rules, t: real): real {
    if r.client.None? then 0.0 else Refilled(r.client.value, rules, t).tokens
  }

  lemma PairSpends(r: Rec, rules: Rules, t: real, id: nat)
    requires rules.rps > 0 && r.client.Some?
    ensures var q := Step(Step(r, Acquire(id, rules, t)), Release(id));
            q.client.Some? && Worth(q, rules, t) + (if Answer(r, rules, t).Admitted? then 1.0 else 0.0) <= Worth(r, rules, t)
  {}

  /** The run took no more than the record holds for a request at t. */
  ghost predicate Spends(r: Rec, rules: Rules, t: real, es: seq<Event>) {
    && Run(r, es).client.Some?
    && Worth(Run(r, es), rules, t) + Granted(Answers(r, es)) as real <= Worth(r, rules, t)
  }

  lemma SpendNothing(r: Rec, rules: Rules, t: real)
    requires r.client.Some?
    ensures Spends(r, rules, t, [])
  {}

  lemma SpendOnce(r: Rec, pre: seq<Event>, rules: Rules, t: real, id: nat)
    requires rules.rps > 0 && Spends(r, rules, t, pre)
    ensures Spends(r, rules, t, pre + [Acquire(id, rules, t)] + [Release(id)])
  {
    PairMore(r, pre, rules, t, id);
    PairSpends(Run(r, pre), rules, t, id);
    GrantedMore(Answers(r, pre), Answer(Run(r, pre), rules, t));
  }

  lemma {:induction false} PairsSpend(r: Rec, rules: Rules, t: real, n: nat, base: nat)
    requires rules.rps > 0 && r.client.Some?
    ensures Spends(r, rules, t, Pairs(rules, t, n, base))
  {
    if n == 0 {
      SpendNothing(r, rules, t);
    } else {
      PairsSpend(r, rules, t, n - 1, base);
      SpendOnce(r, Pairs(rules, t, n - 1, base), rules, t, base + n - 1);
    }
  }

  lemma PairsNonNegative(r: Rec, rules: Rules, t: real, n: nat, base: nat)
    requires rules.rps > 0 && Level(r, rules)
    ensures Level(Run(r, Pairs(rules, t, n, base)), rules)
  {
    PairsShape(rules, t, n, base);
    var es := Pairs(rules, t, n, base);
    forall i | 0 <= i < |es| ensures (es[i].Acquire? && es[i].rules == rules && es[i].now == t) || es[i].Release? {
      assert PairEvent(es[i], rules, t, base, base + n);
    }
    SegmentBudget(r, es, rules, t, t);
  }

  /** Unswept, the second burst meets a bucket that has not refilled. */
  lemma UnsweptRefusesSome(rules: Rules, s: real, sweep: real, t: real)
    requires rules.rps > 0 && s >= 0.0 && (t > 0.0 ==> Earned(rules, t) < BurstOf(rules) as real)
    ensures Granted(Answers(NONE, NoSweeps(TwoBursts(rules, s, sweep, t)))) < 2 * BurstOf(rules)
  {
    var B: nat := BurstOf(rules);
    var p, q := First(rules, s), Second(rules, t);
    SweepRemoved(rules, s, sweep, t);
    FirstRuns(rules, s);
    RunAppend(NONE, p, q);
    GrantedAppend(Answers(NONE, p), Answers(Drained(s), q));
    SecondGrants(rules, s, t);
  }

  lemma SecondGrants(rules: Rules, s: real, t: real)
    requires rules.rps > 0 && (t > 0.0 ==> Earned(rules, t) < BurstOf(rules) as real)
    ensures Granted(Answers(Drained(s), Second(rules, t))) < BurstOf(rules)
  {
    var B: nat := BurstOf(rules);
    PairsSpend(Drained(s), rules, t, B, B + 1);
    PairsNonNegative(Drained(s), rules, t, B, B + 1);
    var end := Run(Drained(s), Second(rules, t));
    RefillLevel(end.client.value, rules, t);
    WorthDrained(rules, s, t);
  }

  lemma WorthDrained(rules: Rules, s: real, t: real)
    requires rules.rps > 0 && (t > 0.0 ==> Earned(rules, t) < BurstOf(rules) as real)
    ensures Worth(Drained(s), rules, t) < BurstOf(rules) as real
  {
    assert t - 0.0 == t;
  }

  lemma SweepRemoved(rules: Rules, s: real, sweep: real, t: real)
    requires rules.rps > 0
    ensures NoSweeps(TwoBursts(rules, s, sweep, t)) == First(rules, s) + Second(rules, t)
  {
    var p, q := First(rules, s), Second(rules, t);
    FirstShape(rules, s);
    SecondShape(rules, t);
    NothingToSweep(p + [Sweep(sweep)], q);
    assert NoSweeps(p + [Sweep(sweep)]) == p by {
      NothingToSweep([], p);
      assert [] + p == p;
      assert (p + [Sweep(sweep)])[..|p|] == p;
    }
  }

  /** With a burst larger than the rate earns in that time, a sweep shows. */
  lemma LargeBurstSeesSweep(rules: Rules, s: real) returns (es: seq<Event>)
    requires s >= 0.0 && !Refills(rules, s)
    ensures Ordinary(es, rules, s) && Answers(NONE, es) != Answers(NONE, NoSweeps(es))
  {
    var late := JustPast(rules, s);
    var sweep := late + s;
    var t := if sweep >= 0.0 then late else 0.0 - s;
    es := TwoBursts(rules, s, sweep, t);
    TwoBurstsOrdinary(rules, s, sweep, t);
    SweptAdmitsAll(rules, s, sweep, t);
    UnsweptRefusesSome(rules, s, sweep, t);
  }

  lemma JustPast(rules: Rules, s: real) returns (t: real)
    requires !Refills(rules, s)
    ensures t > IDLE_AFTER - s - s && Earned(rules, t) < BurstOf(rules) as real
  {
    RefillsEarns(rules, s);
    var rate := rules.rps as real;
    var from := IDLE_AFTER - s - s;
    var spare := BurstOf(rules) as real - Earned(rules, from);
    var extra := spare / 2.0 / rate;
    DivMul(spare / 2.0, rate);
    DivPositive(spare / 2.0, rate);
    t := from + extra;
    EarnedAdds(rules, from, extra);
    assert Earned(rules, extra) == rate * extra;
  }

  lemma DivPositive(x: real, k: real)
    requires x > 0.0 && k > 0.0
    ensures x / k > 0.0
  {}

  /** Sweeps are invisible to every ordinary run with readings at most s out of order exactly when
      the bucket refills in time. */
  lemma SweepsInvisibleExactly(rules: Rules, s: real)
    requires s >= 0.0
    ensures (rules.rps <= 0 || Max(rules.burst, rules.rps) as real <= Earned(rules, 600.0 - 2.0 * s)) <==>
            forall es :: Ordinary(es, rules, s) ==> Answers(NONE, es) == Answers(NONE, NoSweeps(es))
  {
    if Refills(rules, s) {
      forall es | Ordinary(es, rules, s) ensures Answers(NONE, es) == Answers(NONE, NoSweeps(es)) {
        SweepsInvisible(es, rules, s);
      }
    } else {
      var es := LargeBurstSeesSweep(rules, s);
    }
  }
}

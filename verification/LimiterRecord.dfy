/** One client's record in the traffic limiter: a token bucket and a count of requests in
    flight, over every sequence of requests, releases, sweeps, evictions and forgets.
    Times are in seconds.
 */
module LimiterRecord {
  import opened Basics

  datatype Rules = Rules(rps: int, burst: int, maxConcurrent: int)

  /** Bucket level, last refill, requests in flight, last touch. */
  datatype Client = Client(tokens: real, last: real, active: int, seen: real)

  datatype Verdict = Admitted | TooManyInFlight | TooFast(retryAfter: real)

  const IDLE_AFTER: real := 600.0

  function BurstOf(r: Rules): (b: int)
    ensures r.rps > 0 ==> b == Max(r.burst, r.rps)
    ensures r.rps <= 0 ==> b == if r.burst > r.rps then r.burst else 1
  {
    if r.burst > r.rps then r.burst else if r.rps > 0 then r.rps else 1
  }

  function Capped(t: real, cap: real): real { if t > cap then cap else t }

  /** Tokens earned in t seconds. */
  function Earned(r: Rules, t: real): real { (r.rps as real) * t }

  function Refilled(c: Client, r: Rules, now: real): Client {
    if now > c.last then
      c.(tokens := Capped(c.tokens + Earned(r, now - c.last), BurstOf(r) as real), last := now)
    else c
  }

  function Judged(c: Client, r: Rules, now: real): (Client, Verdict) {
    if r.maxConcurrent > 0 && c.active >= r.maxConcurrent then (c, TooManyInFlight)
    else if r.rps <= 0 then (c, Admitted)
    else
      var f := Refilled(c, r, now);
      if f.tokens < 1.0 then
        var wait := (1.0 - f.tokens) / (r.rps as real);
        (f, TooFast(if wait < 1.0 then 1.0 else wait))
      else (f.(tokens := f.tokens - 1.0), Admitted)
  }

  // ----- runs -----

  /** The record, if there is one, and the admitted requests that have not released yet. */
  datatype Rec = Rec(client: Option<Client>, open: set<nat>)

  const NONE := Rec(None, {})

  /** Each request has its own id, the identity of the release it was given. */
  datatype Event =
    | Acquire(id: nat, rules: Rules, now: real)
    | Release(id: nat)
    | Sweep(now: real)
    | Evict
    | Forget

  function Touched(r: Rec, rules: Rules, now: real): Client {
    if r.client.None? then Client(BurstOf(rules) as real, now, 0, now) else r.client.value.(seen := now)
  }

  function Answer(r: Rec, rules: Rules, now: real): Verdict {
    Judged(Touched(r, rules, now), rules, now).1
  }

  function Step(r: Rec, e: Event): Rec {
    match e
    case Acquire(id, rules, now) =>
      var (c, v) := Judged(Touched(r, rules, now), rules, now);
      if v.Admitted? then Rec(Some(c.(active := c.active + 1)), r.open + {id}) else r.(client := Some(c))
    case Release(id) =>
      if id !in r.open then r
      else Rec(if r.client.Some? && r.client.value.active > 0
               then Some(r.client.value.(active := r.client.value.active - 1)) else r.client,
               r.open - {id})
    case Sweep(now) =>
      if r.client.Some? && r.client.value.active == 0 && r.client.value.seen < now - IDLE_AFTER
      then r.(client := None) else r
    case Evict => if r.client.Some? && r.client.value.active == 0 then r.(client := None) else r
    case Forget => r.(client := None)
  }

  function Run(r: Rec, es: seq<Event>): Rec {
    if es == [] then r else Step(Run(r, es[..|es| - 1]), es[|es| - 1])
  }

  /** The answers to the requests of a run, in order. */
  function Answers(r: Rec, es: seq<Event>): seq<Verdict> {
    if es == [] then []
    else
      var init, e := es[..|es| - 1], es[|es| - 1];
      Answers(r, init) + (if e.Acquire? then [Answer(Run(r, init), e.rules, e.now)] else [])
  }

  function Active(r: Rec): int { if r.client.Some? then r.client.value.active else 0 }

  // ----- slots -----

  ghost predicate DistinctIds(es: seq<Event>) {
    forall i, j :: 0 <= i < j < |es| && es[i].Acquire? && es[j].Acquire? ==> es[i].id != es[j].id
  }

  lemma {:induction false} OpenWereAcquired(es: seq<Event>, id: nat)
    requires id in Run(NONE, es).open
    ensures exists i :: 0 <= i < |es| && es[i].Acquire? && es[i].id == id
  {
    if es != [] {
      var init, e := es[..|es| - 1], es[|es| - 1];
      if !(e.Acquire? && e.id == id) {
        OpenWereAcquired(init, id);
        var i :| 0 <= i < |init| && init[i].Acquire? && init[i].id == id;
        assert es[i] == init[i];
      }
    }
  }

  ghost predicate NoForget(es: seq<Event>) {
    forall i :: 0 <= i < |es| ==> !es[i].Forget?
  }

  lemma FreshId(es: seq<Event>)
    requires es != [] && DistinctIds(es) && es[|es| - 1].Acquire?
    ensures es[|es| - 1].id !in Run(NONE, es[..|es| - 1]).open
  {
    var init, e := es[..|es| - 1], es[|es| - 1];
    if e.id in Run(NONE, init).open {
      OpenWereAcquired(init, e.id);
    }
  }

  lemma StepCounts(r: Rec, e: Event)
    requires 0 <= Active(r) <= |r.open| && (e.Acquire? ==> e.id !in r.open)
    ensures 0 <= Active(Step(r, e)) <= |Step(r, e).open|
    ensures !e.Forget? && Active(r) == |r.open| ==> Active(Step(r, e)) == |Step(r, e).open|
  {
    if e.Release? && e.id in r.open { assert |r.open| == |r.open - {e.id}| + 1; }
  }

  /** Without Forget the record's count is exactly the admitted requests not yet released; with
      it the count can only be too low. */
  lemma {:induction false} ActiveCountsOpen(es: seq<Event>)
    requires DistinctIds(es)
    ensures 0 <= Active(Run(NONE, es)) <= |Run(NONE, es).open|
    ensures NoForget(es) ==> Active(Run(NONE, es)) == |Run(NONE, es).open|
  {
    if es != [] {
      var init, e := es[..|es| - 1], es[|es| - 1];
      ActiveCountsOpen(init);
      if e.Acquire? { FreshId(es); }
      StepCounts(Run(NONE, init), e);
    }
  }

  /** Under a positive MaxConcurrent the count never passes it, so without Forget no more than
      that many admitted requests are ever in flight. */
  lemma {:induction false} NeverOverMaxConcurrent(es: seq<Event>, m: int)
    requires m > 0 && DistinctIds(es)
    requires forall i :: 0 <= i < |es| && es[i].Acquire? ==> es[i].rules.maxConcurrent == m
    ensures Active(Run(NONE, es)) <= m
    ensures NoForget(es) ==> |Run(NONE, es).open| <= m
  {
    ActiveCountsOpen(es);
    if es != [] {
      NeverOverMaxConcurrent(es[..|es| - 1], m);
    }
  }

  /** Without Forget, neither a sweep nor an eviction touches a record with requests in flight. */
  lemma InFlightIsKept(es: seq<Event>, e: Event)
    requires DistinctIds(es) && NoForget(es) && (e.Sweep? || e.Evict?)
    requires Run(NONE, es).open != {}
    ensures Step(Run(NONE, es), e) == Run(NONE, es)
  {
    ActiveCountsOpen(es);
  }

  /** In a run without Forget a request is refused for its slots exactly when as many of the client's are
      in flight as a positive MaxConcurrent allows, and without a rate for no other reason. */
  lemma SlotsRefuseExactly(es: seq<Event>, rules: Rules, now: real)
    requires DistinctIds(es) && NoForget(es)
    ensures Answer(Run(NONE, es), rules, now).TooManyInFlight? <==>
            rules.maxConcurrent > 0 && |Run(NONE, es).open| >= rules.maxConcurrent
    ensures rules.rps <= 0 ==> !Answer(Run(NONE, es), rules, now).TooFast?
  {
    ActiveCountsOpen(es);
  }

  /** A release gives its slot back once. */
  lemma DoubleReleaseIsNothing(r: Rec, id: nat)
    ensures Step(Step(r, Release(id)), Release(id)) == Step(r, Release(id))
  {}

  /** With Forget the count can be too low: the second request below goes uncounted once the
      first, admitted before the Forget, gives back a slot that is no longer its own. */
  lemma ForgetUndercounts(rules: Rules)
    requires rules.rps <= 0 && rules.maxConcurrent == 1
    ensures var es := [Acquire(0, rules, 0.0), Forget, Acquire(1, rules, 0.0), Release(0)];
            DistinctIds(es) && Active(Run(NONE, es)) == 0 && |Run(NONE, es).open| == 1
  {
    var es := [Acquire(0, rules, 0.0), Forget, Acquire(1, rules, 0.0), Release(0)];
    var a := Step(NONE, es[0]);
    var b := Step(a, es[1]);
    var c := Step(b, es[2]);
    var d := Step(c, es[3]);
    assert es[..3][..2][..1][..0] == [];
    assert Run(NONE, es[..3][..2][..1]) == a;
    assert Run(NONE, es[..3][..2]) == b;
    assert Run(NONE, es[..3]) == c;
    assert d.open == {1};
  }

  ghost predicate Counts(r: Rec) { Active(r) == |r.open| }

  /** At every point of the run the count is the requests in flight. */
  ghost predicate CountsThroughout(es: seq<Event>) {
    forall n :: 0 <= n <= |es| ==> Counts(Run(NONE, es[..n]))
  }

  /** Every Forget of the run finds nothing in flight. */
  ghost predicate ForgetsIdle(es: seq<Event>) {
    forall n :: 0 <= n < |es| && es[n].Forget? ==> Run(NONE, es[..n]).open == {}
  }

  lemma {:induction false} IdleForgetsCount(es: seq<Event>)
    requires DistinctIds(es) && ForgetsIdle(es)
    ensures Counts(Run(NONE, es))
  {
    if es != [] {
      var n := |es| - 1;
      var init, e := es[..n], es[n];
      forall i | 0 <= i < n && init[i].Forget? ensures Run(NONE, init[..i]).open == {} {
        assert init[..i] == es[..i] && es[i].Forget?;
      }
      IdleForgetsCount(init);
      if e.Acquire? { FreshId(es); }
      StepCounts(Run(NONE, init), e);
    }
  }

  lemma ForgetMiscounts(es: seq<Event>, n: nat)
    requires n < |es| && es[n].Forget? && Run(NONE, es[..n]).open != {}
    ensures !Counts(Run(NONE, es[..n + 1]))
  {
    var upTo := es[..n + 1];
    assert upTo[..|upTo| - 1] == es[..n];
  }

  /** The count is right throughout a run exactly when every Forget in it finds nothing in flight. */
  lemma CountsExactly(es: seq<Event>)
    requires DistinctIds(es)
    ensures CountsThroughout(es) <==> ForgetsIdle(es)
  {
    if ForgetsIdle(es) {
      forall n | 0 <= n <= |es| ensures Counts(Run(NONE, es[..n])) {
        var upTo := es[..n];
        forall i | 0 <= i < n && upTo[i].Forget? ensures Run(NONE, upTo[..i]).open == {} {
          assert upTo[..i] == es[..i] && es[i].Forget?;
        }
        IdleForgetsCount(upTo);
      }
    } else {
      var n :| 0 <= n < |es| && es[n].Forget? && Run(NONE, es[..n]).open != {};
      ForgetMiscounts(es, n);
    }
  }

  // ----- the rate -----

  /** Requests and releases of a record that is kept, all under the same rules. */
  ghost predicate Plain(es: seq<Event>, rules: Rules) {
    forall i :: 0 <= i < |es| ==> (es[i].Acquire? && es[i].rules == rules) || es[i].Release?
  }

  ghost predicate Within(es: seq<Event>, a: real, b: real) {
    forall i :: 0 <= i < |es| && es[i].Acquire? ==> a <= es[i].now <= b
  }

  function Granted(vs: seq<Verdict>): nat {
    if vs == [] then 0 else Granted(vs[..|vs| - 1]) + (if vs[|vs| - 1].Admitted? then 1 else 0)
  }

  /** The bucket is between empty and full. */
  ghost predicate Level(r: Rec, rules: Rules) {
    r.client.Some? ==> 0.0 <= r.client.value.tokens <= BurstOf(rules) as real
  }

  /** Refill earned inside the window [a, b] by a bucket last filled at `last`. */
  function Gain(last: real, a: real, b: real): real {
    if a < last <= b then last - a else 0.0
  }

  /** What the window has granted so far, plus what is left, is a full bucket and the refill
      earned inside the window. */
  ghost predicate Budgeted(r: Rec, granted: nat, rules: Rules, a: real, b: real) {
    match r.client
    case None => granted == 0
    case Some(c) =>
      && (c.last < a ==> granted == 0)
      && granted as real + c.tokens <= BurstOf(rules) as real + Earned(rules, Gain(c.last, a, b))
  }

  lemma EarnedNonNeg(r: Rules, t: real)
    requires r.rps >= 0 && t >= 0.0
    ensures Earned(r, t) >= 0.0
  {}

  lemma EarnedAdds(r: Rules, t: real, u: real)
    ensures Earned(r, t + u) == Earned(r, t) + Earned(r, u)
  {}

  /** As many tokens as the rate says in every whole number of seconds, and a fair part of them in
      every part of a second. */
  lemma {:induction false} EarnsTheRate(r: Rules, n: nat, k: nat)
    requires k > 0
    ensures Earned(r, n as real) == (r.rps * n) as real
    ensures Earned(r, 1.0 / k as real) * k as real == r.rps as real
  {
    if n > 0 {
      EarnsTheRate(r, n - 1, k);
      EarnedAdds(r, (n - 1) as real, 1.0);
    }
    DivMul(1.0, k as real);
  }

  lemma EarnedGrows(r: Rules, t: real, u: real)
    requires r.rps >= 0 && t <= u
    ensures Earned(r, t) <= Earned(r, u)
  {
    EarnedNonNeg(r, u - t);
    EarnedAdds(r, t, u - t);
  }

  lemma RefillLevel(c: Client, rules: Rules, now: real)
    requires rules.rps > 0 && 0.0 <= c.tokens <= BurstOf(rules) as real
    ensures 0.0 <= Refilled(c, rules, now).tokens <= BurstOf(rules) as real
    ensures Refilled(c, rules, now).last == if now > c.last then now else c.last
  {
    if now > c.last { EarnedNonNeg(rules, now - c.last); }
  }

  lemma RefillBudget(c: Client, granted: nat, rules: Rules, now: real, a: real, b: real)
    requires rules.rps > 0 && a <= now <= b && 0.0 <= c.tokens <= BurstOf(rules) as real
    requires Budgeted(Rec(Some(c), {}), granted, rules, a, b)
    ensures Budgeted(Rec(Some(Refilled(c, rules, now)), {}), granted, rules, a, b)
    ensures Refilled(c, rules, now).last >= a
  {
    RefillLevel(c, rules, now);
    if now > c.last {
      EarnedNonNeg(rules, Gain(now, a, b));
      if c.last >= a {
        EarnedAdds(rules, Gain(c.last, a, b), now - c.last);
        assert Gain(c.last, a, b) + (now - c.last) == Gain(now, a, b);
      }
    }
  }

  lemma JudgedBudget(c: Client, granted: nat, rules: Rules, now: real, a: real, b: real)
    requires rules.rps > 0 && a <= now <= b && 0.0 <= c.tokens <= BurstOf(rules) as real
    requires Budgeted(Rec(Some(c), {}), granted, rules, a, b)
    ensures var (d, v) := Judged(c, rules, now);
            && 0.0 <= d.tokens <= BurstOf(rules) as real
            && Budgeted(Rec(Some(d), {}), granted + (if v.Admitted? then 1 else 0), rules, a, b)
  {
    RefillBudget(c, granted, rules, now, a, b);
    RefillLevel(c, rules, now);
  }

  lemma AcquireBudget(r: Rec, granted: nat, e: Event, a: real, b: real)
    requires e.Acquire? && e.rules.rps > 0 && a <= e.now <= b
    requires Level(r, e.rules) && Budgeted(r, granted, e.rules, a, b)
    ensures Level(Step(r, e), e.rules)
    ensures Budgeted(Step(r, e), granted + (if Answer(r, e.rules, e.now).Admitted? then 1 else 0), e.rules, a, b)
  {
    var c := Touched(r, e.rules, e.now);
    EarnedNonNeg(e.rules, Gain(c.last, a, b));
    JudgedBudget(c, granted, e.rules, e.now, a, b);
  }

  lemma {:induction false} SegmentBudget(r: Rec, es: seq<Event>, rules: Rules, a: real, b: real)
    requires rules.rps > 0 && Level(r, rules) && Plain(es, rules) && Within(es, a, b)
    ensures Level(Run(r, es), rules)
    ensures Budgeted(Run(r, es), Granted(Answers(r, es)), rules, a, b)
  {
    if es == [] {
      if r.client.Some? { EarnedNonNeg(rules, Gain(r.client.value.last, a, b)); }
    } else {
      var init, e := es[..|es| - 1], es[|es| - 1];
      SegmentBudget(r, init, rules, a, b);
      var s := Run(r, init);
      if e.Acquire? {
        AcquireBudget(s, Granted(Answers(r, init)), e, a, b);
        var v := Answer(s, e.rules, e.now);
        assert (Answers(r, init) + [v])[..|Answers(r, init)|] == Answers(r, init);
      } else {
        assert Answers(r, init) + [] == Answers(r, init);
      }
    }
  }

  lemma BudgetBound(r: Rec, granted: nat, rules: Rules, a: real, d: real)
    requires rules.rps > 0 && d >= 0.0 && Level(r, rules) && Budgeted(r, granted, rules, a, a + d)
    ensures granted as real <= BurstOf(rules) as real + Earned(rules, d)
  {
    EarnedNonNeg(rules, d);
    if r.client.Some? {
      EarnedGrows(rules, Gain(r.client.value.last, a, a + d), d);
    }
  }

  /** Any stretch of calls whose clock readings lie in a window of length d, in whatever order
      they come, admits at most burst + rate * d requests. */
  lemma RateBound(r: Rec, es: seq<Event>, rules: Rules, a: real, d: real)
    requires rules.rps > 0 && d >= 0.0 && Level(r, rules) && Plain(es, rules) && Within(es, a, a + d)
    ensures Granted(Answers(r, es)) as real <= Max(rules.burst, rules.rps) as real + Earned(rules, d)
  {
    SegmentBudget(r, es, rules, a, a + d);
    BudgetBound(Run(r, es), Granted(Answers(r, es)), rules, a, d);
  }

  /** The level stays between empty and full in every run of a kept record. */
  lemma {:induction false} LevelHolds(es: seq<Event>, rules: Rules)
    requires rules.rps > 0
    requires forall i :: 0 <= i < |es| && es[i].Acquire? ==> es[i].rules == rules
    ensures Level(Run(NONE, es), rules)
  {
    if es != [] {
      var init, e := es[..|es| - 1], es[|es| - 1];
      LevelHolds(init, rules);
      if e.Acquire? {
        RefillLevel(Touched(Run(NONE, init), rules, e.now), rules, e.now);
      }
    }
  }

  lemma OneMore(r: Rec, es: seq<Event>, e: Event)
    ensures Run(r, es + [e]) == Step(Run(r, es), e)
    ensures Answers(r, es + [e])
         == Answers(r, es) + if e.Acquire? then [Answer(Run(r, es), e.rules, e.now)] else []
  {
    assert (es + [e])[..|es|] == es;
  }

  /** When the bucket next holds a whole token, if nothing is taken from it. */
  function ReadyAt(c: Client, rules: Rules): real
    requires rules.rps > 0
  {
    c.last + (1.0 - c.tokens) / (rules.rps as real)
  }

  lemma ReadyExactly(c: Client, rules: Rules, t: real)
    requires rules.rps > 0 && c.tokens < 1.0
    ensures Refilled(c, rules, t).tokens >= 1.0 <==> t >= ReadyAt(c, rules)
  {
    var need := (1.0 - c.tokens) / (rules.rps as real);
    DivMul(1.0 - c.tokens, rules.rps as real);
    assert Earned(rules, need) == 1.0 - c.tokens;
    if t - c.last >= need { EarnedGrows(rules, need, t - c.last); }
    if need <= 0.0 { EarnedGrows(rules, need, 0.0); }
    if c.last < t < c.last + need { EarnedLess(rules, t - c.last, need); }
  }

  lemma EarnedLess(r: Rules, t: real, u: real)
    requires r.rps > 0 && t < u
    ensures Earned(r, t) < Earned(r, u)
  {
    EarnedAdds(r, t, u - t);
    assert Earned(r, u - t) > 0.0;
  }

  /** After a refusal for speed, the next request is admitted exactly from the moment the bucket
      is ready on. */
  lemma AdmittedOnceReady(r: Rec, rules: Rules, now: real, t: real)
    requires rules.rps > 0 && Answer(r, rules, now).TooFast?
    ensures var after := Step(r, Acquire(0, rules, now));
            && after.client.Some? && after.client.value.tokens < 1.0
            && (Answer(after, rules, t).Admitted? <==> t >= ReadyAt(after.client.value, rules))
  {
    var c := Touched(r, rules, now);
    var f := Refilled(c, rules, now);
    var next := f.(seen := t);
    assert Step(r, Acquire(0, rules, now)).client == Some(f);
    ReadyExactly(next, rules, t);
    assert ReadyAt(next, rules) == ReadyAt(f, rules);
  }

  /** The wait a refusal names is enough exactly when the bucket's last refill is ahead of the
      clock by no more than the wait exceeds the time the missing part of a token takes: always
      on a clock that has not gone back. */
  lemma RetryAfterExactly(r: Rec, rules: Rules, now: real)
    requires rules.rps > 0 && Answer(r, rules, now).TooFast?
    ensures var wait := Answer(r, rules, now).retryAfter;
            var after := Step(r, Acquire(0, rules, now));
            && after.client.Some? && wait >= 1.0
            && var missing := (1.0 - after.client.value.tokens) / (rules.rps as real);
            && (Answer(after, rules, now + wait).Admitted? <==> after.client.value.last - now <= wait - missing)
            && (r.client.None? || r.client.value.last <= now ==> Answer(after, rules, now + wait).Admitted?)
  {
    var wait := Answer(r, rules, now).retryAfter;
    AdmittedOnceReady(r, rules, now, now + wait);
    var f := Refilled(Touched(r, rules, now), rules, now);
    assert Step(r, Acquire(0, rules, now)).client == Some(f);
  }

  /** A run in which it is not: after a request that read 10, a refusal at 0 names a wait of one
      second, and at 1 the answer is the same. */
  lemma RetryAfterTooShort()
    ensures var rules := Rules(1, 0, 0);
            var es := [Acquire(0, rules, 10.0), Release(0)];
            var again := es + [Acquire(1, rules, 0.0)];
            && Answer(Run(NONE, es), rules, 0.0) == TooFast(1.0)
            && Answer(Run(NONE, again), rules, 0.0 + 1.0) == TooFast(1.0)
  {
    var rules := Rules(1, 0, 0);
    var es := [Acquire(0, rules, 10.0), Release(0)];
    assert es[..1] == [Acquire(0, rules, 10.0)] && es[..1][..0] == [];
    assert Run(NONE, es[..1]) == Rec(Some(Client(0.0, 10.0, 1, 10.0)), {0});
    var r := Rec(Some(Client(0.0, 10.0, 0, 10.0)), {});
    assert Run(NONE, es) == r;
    OneMore(NONE, es, Acquire(1, rules, 0.0));
    assert Step(r, Acquire(1, rules, 0.0)) == Rec(Some(Client(0.0, 10.0, 0, 0.0)), {});
  }

  /** Requests at least as far apart as a token takes to earn. */
  ghost predicate Paced(es: seq<Event>, rules: Rules) {
    && (forall i :: 0 <= i < |es| && es[i].Acquire? ==> es[i].rules == rules)
    && forall i, j :: 0 <= i < j < |es| && es[i].Acquire? && es[j].Acquire? ==> Apart(es[i], es[j])
  }

  predicate Apart(a: Event, b: Event)
    requires a.Acquire? && b.Acquire?
  {
    Earned(a.rules, b.now - a.now) >= 1.0
  }

  /** The bucket was last filled no later than some request of the run. */
  ghost predicate FilledBy(r: Rec, es: seq<Event>) {
    r.client.Some? ==> exists i :: 0 <= i < |es| && es[i].Acquire? && r.client.value.last <= es[i].now
  }

  lemma ReadyForNext(r: Rec, rules: Rules, now: real)
    requires rules.rps > 0 && Level(r, rules)
    requires r.client.Some? ==> Earned(rules, now - r.client.value.last) >= 1.0
    ensures !Answer(r, rules, now).TooFast?
  {
    if r.client.Some? && now <= r.client.value.last {
      EarnedGrows(rules, now - r.client.value.last, 0.0);
    }
  }

  lemma {:induction false} RunFilledBy(es: seq<Event>, rules: Rules)
    requires rules.rps > 0 && Paced(es, rules)
    ensures FilledBy(Run(NONE, es), es)
  {
    if es != [] {
      var n := |es| - 1;
      var init, e := es[..n], es[n];
      RunFilledBy(init, rules);
      var s := Run(NONE, init);
      var was := if s.client.Some? then s.client.value.last else 0.0;
      if s.client.Some? {
        var i :| 0 <= i < |init| && init[i].Acquire? && was <= init[i].now;
        assert es[i] == init[i] && was <= es[i].now;
      }
      if e.Acquire? { assert es[n].now == e.now; }
    }
  }

  lemma PacedNext(es: seq<Event>, rules: Rules)
    requires rules.rps > 0 && es != [] && es[|es| - 1].Acquire? && Paced(es, rules)
    ensures !Answer(Run(NONE, es[..|es| - 1]), rules, es[|es| - 1].now).TooFast?
  {
    var n := |es| - 1;
    var init, now := es[..n], es[n].now;
    var s := Run(NONE, init);
    LevelHolds(init, rules);
    RunFilledBy(init, rules);
    if s.client.Some? {
      var i :| 0 <= i < |init| && init[i].Acquire? && s.client.value.last <= init[i].now;
      assert es[i] == init[i] && Apart(es[i], es[n]);
      EarnedGrows(rules, now - es[i].now, now - s.client.value.last);
    }
    ReadyForNext(s, rules, now);
  }

  /** A client that keeps to the rate is never told it is too fast, whatever sweeps, evictions,
      releases and forgets come in between. */
  lemma {:induction false} PacedIsAdmitted(es: seq<Event>, rules: Rules)
    requires rules.rps > 0 && Paced(es, rules)
    ensures forall v :: v in Answers(NONE, es) ==> !v.TooFast?
  {
    if es != [] {
      var n := |es| - 1;
      PacedIsAdmitted(es[..n], rules);
      if es[n].Acquire? { PacedNext(es, rules); }
    }
  }

  lemma DivMul(x: real, k: real)
    requires k > 0.0
    ensures k * (x / k) == x
  {}
}

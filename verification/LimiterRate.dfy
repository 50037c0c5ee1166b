/** How many requests of one client a time window can see admitted: over whole runs, with clock
    readings out of order, and with sweeps.
 */
module LimiterRate {
  import opened Basics
  import opened LimiterRecord
  import opened LimiterSweep

  predicate In(t: real, a: real, b: real) { a <= t <= b }

  /** The requests of the run that read the clock in [a, b] and were admitted. */
  function GrantedIn(r: Rec, es: seq<Event>, a: real, b: real): nat {
    if es == [] then 0
    else
      var init, e := es[..|es| - 1], es[|es| - 1];
      GrantedIn(r, init, a, b)
      + if e.Acquire? && In(e.now, a, b) && Answer(Run(r, init), e.rules, e.now).Admitted? then 1 else 0
  }

  // ----- the account of one window -----

  /** Time from a to t, if any. */
  function Since(a: real, t: real): real { if t > a then t - a else 0.0 }

  /** g requests of the window from a on were admitted: they and what is left in the bucket were
      paid for by a full bucket and the refill since a. */
  ghost predicate Paid(c: Client, g: nat, rules: Rules, a: real) {
    && 0.0 <= c.tokens <= BurstOf(rules) as real
    && (c.last < a ==> g == 0)
    && g as real + c.tokens <= BurstOf(rules) as real + Earned(rules, Since(a, c.last))
  }

  /** A bucket filled after the window's end w that can still admit has paid for one more request,
      the one that filled it, and holds more than one token to begin with. */
  ghost predicate Overpaid(c: Client, g: nat, rules: Rules, a: real, w: real) {
    c.last > w && c.tokens >= 1.0 ==>
      && BurstOf(rules) > 1
      && g as real + c.tokens + 1.0 <= BurstOf(rules) as real + Earned(rules, Since(a, c.last))
  }

  lemma PaidRefill(c: Client, g: nat, rules: Rules, a: real, now: real)
    requires rules.rps > 0 && Paid(c, g, rules, a)
    ensures Paid(Refilled(c, rules, now), g, rules, a)
  {
    RefillLevel(c, rules, now);
    if now > c.last {
      if c.last >= a {
        EarnedAdds(rules, Since(a, c.last), now - c.last);
        assert Since(a, c.last) + (now - c.last) == Since(a, now);
      } else {
        EarnedNonNeg(rules, Since(a, now));
      }
    }
  }

  lemma JudgedPaid(c: Client, g: nat, rules: Rules, a: real, w: real, now: real)
    requires rules.rps > 0 && Paid(c, g, rules, a) && Overpaid(c, g, rules, a, w)
    ensures var (d, v) := Judged(c, rules, now);
            var h := g + if v.Admitted? && In(now, a, w) then 1 else 0;
            Paid(d, h, rules, a) && Overpaid(d, h, rules, a, w)
  {
    PaidRefill(c, g, rules, a, now);
    RefillLevel(c, rules, now);
  }

  lemma FreshPaid(rules: Rules, a: real, w: real, now: real)
    requires rules.rps > 0
    ensures var c := Client(BurstOf(rules) as real, now, 0, now);
            var (d, v) := Judged(c, rules, now);
            var h := if v.Admitted? && In(now, a, w) then 1 else 0;
            Paid(d, h, rules, a) && Overpaid(d, h, rules, a, w)
  {
    EarnedNonNeg(rules, Since(a, now));
  }

  ghost predicate Account(r: Rec, g: nat, rules: Rules, a: real, w: real) {
    match r.client
    case None => g == 0
    case Some(c) => Paid(c, g, rules, a) && Overpaid(c, g, rules, a, w)
  }

  lemma StepAccount(r: Rec, g: nat, e: Event, rules: Rules, a: real, w: real)
    requires rules.rps > 0 && Account(r, g, rules, a, w) && (e.Release? || (e.Acquire? && e.rules == rules))
    ensures Account(Step(r, e), g + (if e.Acquire? && In(e.now, a, w) && Answer(r, e.rules, e.now).Admitted? then 1 else 0), rules, a, w)
  {
    if e.Acquire? {
      if r.client.None? {
        FreshPaid(rules, a, w, e.now);
      } else {
        JudgedPaid(Touched(r, rules, e.now), g, rules, a, w, e.now);
      }
    }
  }

  lemma {:induction false} RunAccount(es: seq<Event>, rules: Rules, a: real, w: real)
    requires rules.rps > 0 && Plain(es, rules)
    ensures Account(Run(NONE, es), GrantedIn(NONE, es, a, w), rules, a, w)
  {
    if es != [] {
      var init := es[..|es| - 1];
      RunAccount(init, rules, a, w);
      StepAccount(Run(NONE, init), GrantedIn(NONE, init, a, w), es[|es| - 1], rules, a, w);
    }
  }

  lemma {:induction false} LastBelow(es: seq<Event>, rules: Rules, top: real)
    requires Plain(es, rules) && forall i :: 0 <= i < |es| && es[i].Acquire? ==> es[i].now <= top
    ensures Run(NONE, es).client.Some? ==> Run(NONE, es).client.value.last <= top
  {
    if es != [] { LastBelow(es[..|es| - 1], rules, top); }
  }

  // ----- the bound -----

  /** What readings up to s out of order can add to a window. */
  function Slack(rules: Rules, s: real): real {
    if BurstOf(rules) <= 1 || Earned(rules, s) <= 1.0 then 0.0 else Earned(rules, s) - 1.0
  }

  /** The account at the moment a request of the window is admitted. */
  lemma AdmittedBound(c: Client, g: nat, rules: Rules, a: real, d: real, s: real, now: real)
    requires rules.rps > 0 && d >= 0.0 && s >= 0.0 && In(now, a, a + d)
    requires Paid(c, g, rules, a) && Overpaid(c, g, rules, a, a + d) && c.last <= a + d + s
    requires Judged(c, rules, now).1.Admitted?
    ensures (g + 1) as real <= BurstOf(rules) as real + Earned(rules, d) + Slack(rules, s)
  {
    PaidRefill(c, g, rules, a, now);
    RefillLevel(c, rules, now);
    var f := Refilled(c, rules, now);
    assert f.tokens >= 1.0;
    if f.last <= a + d {
      EarnedGrows(rules, Since(a, f.last), d);
    } else {
      EarnedGrows(rules, Since(a, f.last), d + s);
      EarnedAdds(rules, d, s);
    }
  }

  lemma LastAdmitted(es: seq<Event>, rules: Rules, a: real, d: real, s: real)
    requires rules.rps > 0 && Plain(es, rules) && d >= 0.0 && s >= 0.0 && Skewed(es, s)
    requires es != [] && es[|es| - 1].Acquire? && In(es[|es| - 1].now, a, a + d)
    requires Answer(Run(NONE, es[..|es| - 1]), rules, es[|es| - 1].now).Admitted?
    ensures GrantedIn(NONE, es, a, a + d) as real <= BurstOf(rules) as real + Earned(rules, d) + Slack(rules, s)
  {
    var n := |es| - 1;
    var init, now := es[..n], es[n].now;
    var r := Run(NONE, init);
    forall i | 0 <= i < |init| && init[i].Acquire? ensures init[i].now <= a + d + s {
      assert init[i] == es[i] && Behind(es[i], es[n], s);
    }
    RunAccount(init, rules, a, a + d);
    LastBelow(init, rules, a + d + s);
    var g := GrantedIn(NONE, init, a, a + d);
    EarnedNonNeg(rules, d);
    if r.client.Some? {
      AdmittedBound(Touched(r, rules, now), g, rules, a, d, s, now);
    }
  }

  lemma {:induction false} WindowBudget(es: seq<Event>, rules: Rules, a: real, d: real, s: real)
    requires rules.rps > 0 && Plain(es, rules) && d >= 0.0 && s >= 0.0 && Skewed(es, s)
    ensures GrantedIn(NONE, es, a, a + d) as real <= BurstOf(rules) as real + Earned(rules, d) + Slack(rules, s)
  {
    EarnedNonNeg(rules, d);
    if es != [] {
      var n := |es| - 1;
      var init, e := es[..n], es[n];
      assert Skewed(init, s) by {
        forall i, j | 0 <= i < j < |init| && Timed(init[i]) && Timed(init[j]) ensures Behind(init[i], init[j], s) {
          assert Behind(es[i], es[j], s);
        }
      }
      WindowBudget(init, rules, a, d, s);
      if e.Acquire? && In(e.now, a, a + d) && Answer(Run(NONE, init), rules, e.now).Admitted? {
        LastAdmitted(es, rules, a, d, s);
      }
    }
  }

  /** In every run of a kept record whose readings never fall more than s behind an earlier one, and
      every window of length d, the requests that read the clock in the window and were admitted
      number at most burst + rate * d, and rate * s - 1 more when that is positive and the bucket
      holds more than one. */
  lemma WindowBound(es: seq<Event>, rules: Rules, a: real, d: real, s: real)
    requires rules.rps > 0 && Plain(es, rules) && d >= 0.0 && s >= 0.0 && Skewed(es, s)
    ensures GrantedIn(NONE, es, a, a + d) as real
            <= Max(rules.burst, rules.rps) as real + Earned(rules, d)
               + if Max(rules.burst, rules.rps) <= 1 || Earned(rules, s) <= 1.0 then 0.0 else Earned(rules, s) - 1.0
  {
    WindowBudget(es, rules, a, d, s);
  }

  // ----- exactly how much disorder the plain bound stands -----

  ghost predicate WindowOk(es: seq<Event>, rules: Rules, a: real, d: real) {
    GrantedIn(NONE, es, a, a + d) as real <= Max(rules.burst, rules.rps) as real + Earned(rules, d)
  }

  /** burst + rate * d holds for every window of every run of a kept record with skew at most s. */
  ghost predicate BoundStands(rules: Rules, s: real) {
    forall es, a, d :: Plain(es, rules) && Skewed(es, s) && d >= 0.0 ==> WindowOk(es, rules, a, d)
  }

  lemma GrantedMoreIn(r: Rec, es: seq<Event>, e: Event, a: real, b: real)
    ensures GrantedIn(r, es + [e], a, b)
         == GrantedIn(r, es, a, b) + if e.Acquire? && In(e.now, a, b) && Answer(Run(r, es), e.rules, e.now).Admitted? then 1 else 0
  {
    assert (es + [e])[..|es|] == es;
  }

  lemma GrantedPair(r: Rec, es: seq<Event>, rules: Rules, t: real, id: nat, a: real, b: real)
    ensures GrantedIn(r, es + [Acquire(id, rules, t)] + [Release(id)], a, b)
         == GrantedIn(r, es, a, b) + if In(t, a, b) && Answer(Run(r, es), rules, t).Admitted? then 1 else 0
  {
    GrantedMoreIn(r, es, Acquire(id, rules, t), a, b);
    GrantedMoreIn(r, es + [Acquire(id, rules, t)], Release(id), a, b);
  }

  /** A fresh bucket admits its whole burst at one instant of the window. */
  lemma {:induction false} BurstIn(rules: Rules, t: real, n: nat, base: nat, a: real, b: real)
    requires rules.rps > 0 && n <= BurstOf(rules) && In(t, a, b)
    ensures GrantedIn(NONE, Pairs(rules, t, n, base), a, b) == n
  {
    if n > 0 {
      BurstIn(rules, t, n - 1, base, a, b);
      BurstAdmits(rules, t, n, base);
      GrantedPair(NONE, Pairs(rules, t, n - 1, base), rules, t, base + n - 1, a, b);
    }
  }

  lemma BurstAdmits(rules: Rules, t: real, n: nat, base: nat)
    requires rules.rps > 0 && 0 < n <= BurstOf(rules)
    ensures Answer(Run(NONE, Pairs(rules, t, n - 1, base)), rules, t).Admitted?
  {
    BurstSpends(rules, t, n - 1, base);
    PairStep(rules, t, n, base + n - 1);
  }

  /** A burst at 0, one request ahead of time, and one more back at d. */
  function Disorder(rules: Rules, d: real, ahead: real): seq<Event>
    requires rules.rps > 0
  {
    var B: nat := BurstOf(rules);
    Pairs(rules, 0.0, B, 0) + [Acquire(B, rules, ahead)] + [Release(B)] + [Acquire(B + 1, rules, d)] + [Release(B + 1)]
  }

  lemma DisorderIsSkewed(rules: Rules, d: real, s: real)
    requires rules.rps > 0 && d >= 0.0 && s >= 0.0
    ensures Plain(Disorder(rules, d, d + s), rules) && Skewed(Disorder(rules, d, d + s), s)
  {
    var B: nat := BurstOf(rules);
    var p, es := Pairs(rules, 0.0, B, 0), Disorder(rules, d, d + s);
    PairsShape(rules, 0.0, B, 0);
    forall i | 0 <= i < |p| ensures es[i] == p[i] && PairEvent(es[i], rules, 0.0, 0, B) {
      assert PairEvent(p[i], rules, 0.0, 0, B);
    }
    forall i, j | 0 <= i < j < |es| && Timed(es[i]) && Timed(es[j]) ensures Behind(es[i], es[j], s) {
      if i >= |p| {
        assert i == |p| && es[j].now == d;
      } else {
        assert es[i].now == 0.0 <= es[j].now;
      }
    }
  }

  /** A bucket drained at 0 that has two tokens to earn by `ahead`, after a request that reads it. */
  function Ahead(rules: Rules, ahead: real): Rec {
    Rec(Some(Client(Capped(Earned(rules, ahead), BurstOf(rules) as real) - 1.0, ahead, 0, ahead)), {})
  }

  lemma AheadStep(rules: Rules, ahead: real, id: nat)
    requires rules.rps > 0 && BurstOf(rules) > 1 && ahead > 0.0 && Earned(rules, ahead) >= 2.0
    ensures Step(Step(Spent(rules, 0.0, BurstOf(rules)), Acquire(id, rules, ahead)), Release(id)) == Ahead(rules, ahead)
  {
    var s := Spent(rules, 0.0, BurstOf(rules));
    assert s.client == Some(Client(0.0, 0.0, 0, 0.0));
    var r := Step(s, Acquire(id, rules, ahead));
    assert r == Rec(Some(Ahead(rules, ahead).client.value.(active := 1)), {id});
    assert {id} - {id} == {};
  }

  lemma AheadAdmits(rules: Rules, ahead: real, now: real)
    requires rules.rps > 0 && BurstOf(rules) > 1 && now < ahead && Earned(rules, ahead) >= 2.0
    ensures Answer(Ahead(rules, ahead), rules, now).Admitted?
  {}

  /** One request more than the burst is admitted in the window from 0 to d. */
  lemma DisorderGrants(rules: Rules, d: real, s: real)
    requires rules.rps > 0 && BurstOf(rules) > 1 && d >= 0.0 && s > 0.0 && Earned(rules, d + s) >= 2.0
    ensures GrantedIn(NONE, Disorder(rules, d, d + s), 0.0, 0.0 + d) == BurstOf(rules) + 1
  {
    var B: nat := BurstOf(rules);
    var p := Pairs(rules, 0.0, B, 0);
    BurstIn(rules, 0.0, B, 0, 0.0, 0.0 + d);
    BurstSpends(rules, 0.0, B, 0);
    AheadGrantsNone(p, rules, d, s, B);
    AheadGrantsOne(p + [Acquire(B, rules, d + s)] + [Release(B)], rules, d, s, B + 1);
  }

  /** The request ahead of time is outside the window. */
  lemma AheadGrantsNone(p: seq<Event>, rules: Rules, d: real, s: real, id: nat)
    requires rules.rps > 0 && BurstOf(rules) > 1 && d >= 0.0 && s > 0.0 && Earned(rules, d + s) >= 2.0
    requires Run(NONE, p) == Spent(rules, 0.0, BurstOf(rules))
    ensures var q := p + [Acquire(id, rules, d + s)] + [Release(id)];
            Run(NONE, q) == Ahead(rules, d + s) && GrantedIn(NONE, q, 0.0, 0.0 + d) == GrantedIn(NONE, p, 0.0, 0.0 + d)
  {
    GrantedPair(NONE, p, rules, d + s, id, 0.0, 0.0 + d);
    PairMore(NONE, p, rules, d + s, id);
    AheadStep(rules, d + s, id);
  }

  lemma AheadGrantsOne(q: seq<Event>, rules: Rules, d: real, s: real, id: nat)
    requires rules.rps > 0 && BurstOf(rules) > 1 && d >= 0.0 && s > 0.0 && Earned(rules, d + s) >= 2.0
    requires Run(NONE, q) == Ahead(rules, d + s)
    ensures GrantedIn(NONE, q + [Acquire(id, rules, d)] + [Release(id)], 0.0, 0.0 + d) == GrantedIn(NONE, q, 0.0, 0.0 + d) + 1
  {
    AheadAdmits(rules, d + s, d);
    GrantedPair(NONE, q, rules, d, id, 0.0, 0.0 + d);
  }

  /** The part of a token that, with the skew, makes two. */
  lemma PartOfToken(rules: Rules, s: real) returns (d: real)
    requires rules.rps > 0 && Earned(rules, s) > 1.0
    ensures d >= 0.0 && Earned(rules, d) < 1.0 && Earned(rules, d + s) >= 2.0
  {
    var f := if Earned(rules, s) >= 2.0 then 0.0 else 2.0 - Earned(rules, s);
    d := f / (rules.rps as real);
    DivMul(f, rules.rps as real);
    assert Earned(rules, d) == f;
    EarnedAdds(rules, d, s);
    if f > 0.0 { DivPositive(f, rules.rps as real); }
  }

  /** With a positive rate, the plain bound burst + rate * d stands for all runs of skew at most s
      exactly when the rate earns at most one token in s, or the bucket holds only one. */
  lemma BoundStandsExactly(rules: Rules, s: real)
    requires rules.rps > 0 && s >= 0.0
    ensures BoundStands(rules, s) <==> Max(rules.burst, rules.rps) <= 1 || Earned(rules, s) <= 1.0
  {
    if BurstOf(rules) <= 1 || Earned(rules, s) <= 1.0 {
      forall es, a, d | Plain(es, rules) && Skewed(es, s) && d >= 0.0 ensures WindowOk(es, rules, a, d) {
        WindowBound(es, rules, a, d, s);
      }
    } else {
      BoundBroken(rules, s);
    }
  }

  lemma BoundBroken(rules: Rules, s: real)
    requires rules.rps > 0 && s >= 0.0 && BurstOf(rules) > 1 && Earned(rules, s) > 1.0
    ensures !BoundStands(rules, s)
  {
    var d := PartOfToken(rules, s);
    DisorderIsSkewed(rules, d, s);
    DisorderGrants(rules, d, s);
    assert !WindowOk(Disorder(rules, d, d + s), rules, 0.0, d);
  }

  /** So it stands for every rule set exactly when readings are never out of order. */
  lemma BoundStandsForAllExactly(s: real)
    requires s >= 0.0
    ensures (forall rules: Rules :: rules.rps > 0 ==> BoundStands(rules, s)) <==> s == 0.0
  {
    if s == 0.0 {
      forall rules: Rules | rules.rps > 0 ensures BoundStands(rules, s) { BoundStandsExactly(rules, s); }
    } else {
      var k := (2.0 / s).Floor + 2;
      var rules := Rules(k, 0, 0);
      DivPositive(2.0, s);
      FastEnough(rules, s);
      BoundStandsExactly(rules, s);
    }
  }

  lemma FastEnough(rules: Rules, s: real)
    requires s > 0.0 && rules.rps as real > 2.0 / s
    ensures Earned(rules, s) > 1.0
  {
    DivMul(2.0, s);
    assert s * (rules.rps as real - 2.0 / s) > 0.0;
  }

  // ----- and with sweeps -----

  lemma {:induction false} SweptGrants(es: seq<Event>, rules: Rules, a: real, b: real)
    requires Ordinary(es, rules, 0.0) && Refills(rules, 0.0)
    ensures GrantedIn(NONE, es, a, b) == GrantedIn(NONE, NoSweeps(es), a, b)
  {
    if es != [] {
      var init, e := es[..|es| - 1], es[|es| - 1];
      OrdinaryPrefix(es, rules, 0.0);
      SweptGrants(init, rules, a, b);
      if e.Acquire? { LastAnswer(es, rules, 0.0); }
      if e.Sweep? {
        assert NoSweeps(es) == NoSweeps(init);
      } else {
        GrantedMoreIn(NONE, NoSweeps(init), e, a, b);
      }
    }
  }

  lemma {:induction false} UnsweptPlain(es: seq<Event>, rules: Rules)
    requires Ordinary(es, rules, 0.0) && NoForget(es)
    ensures Plain(NoSweeps(es), rules)
    ensures forall i :: 0 <= i < |NoSweeps(es)| ==> NoSweeps(es)[i] in es
  {
    if es != [] {
      var init, e := es[..|es| - 1], es[|es| - 1];
      OrdinaryPrefix(es, rules, 0.0);
      UnsweptPlain(init, rules);
      assert forall x :: x in init ==> x in es;
      assert e in es;
    }
  }

  lemma {:induction false} UnsweptInOrder(es: seq<Event>, rules: Rules)
    requires Ordinary(es, rules, 0.0) && NoForget(es)
    ensures Skewed(NoSweeps(es), 0.0)
  {
    if es != [] {
      var init, e := es[..|es| - 1], es[|es| - 1];
      OrdinaryPrefix(es, rules, 0.0);
      UnsweptInOrder(init, rules);
      UnsweptPlain(init, rules);
      var was := NoSweeps(init);
      forall i | 0 <= i < |was| && Timed(was[i]) && Timed(e) ensures Behind(was[i], e, 0.0) {
        var k :| 0 <= k < |init| && init[k] == was[i];
        assert es[k] == init[k] && Behind(es[k], es[|es| - 1], 0.0);
      }
      if !e.Sweep? { SkewedMore(was, e); }
    }
  }

  lemma SkewedMore(es: seq<Event>, e: Event)
    requires Skewed(es, 0.0) && forall i :: 0 <= i < |es| && Timed(es[i]) && Timed(e) ==> Behind(es[i], e, 0.0)
    ensures Skewed(es + [e], 0.0)
  {
    var all := es + [e];
    forall i, j | 0 <= i < j < |all| && Timed(all[i]) && Timed(all[j]) ensures Behind(all[i], all[j], 0.0) {
      if j < |es| { assert Behind(es[i], es[j], 0.0); }
    }
  }

  /** The bound holds for every window of every run with sweeps anywhere, in time order and without
      Forget, under these rules. */
  ghost predicate SweptBoundStands(rules: Rules) {
    forall es, a, d :: Ordinary(es, rules, 0.0) && NoForget(es) && d >= 0.0 ==> WindowOk(es, rules, a, d)
  }

  lemma SweptWindowBound(es: seq<Event>, rules: Rules, a: real, d: real)
    requires rules.rps > 0 && Ordinary(es, rules, 0.0) && NoForget(es) && Refills(rules, 0.0) && d >= 0.0
    ensures WindowOk(es, rules, a, d)
  {
    UnsweptPlain(es, rules);
    UnsweptInOrder(es, rules);
    WindowBound(NoSweeps(es), rules, a, d, 0.0);
    SweptGrants(es, rules, a, a + d);
  }

  lemma {:induction false} GrantedInAll(r: Rec, es: seq<Event>, a: real, b: real)
    requires Within(es, a, b)
    ensures GrantedIn(r, es, a, b) == Granted(Answers(r, es))
  {
    if es != [] {
      var init, e := es[..|es| - 1], es[|es| - 1];
      GrantedInAll(r, init, a, b);
      if e.Acquire? {
        GrantedMore(Answers(r, init), Answer(Run(r, init), e.rules, e.now));
      } else {
        assert Answers(r, es) == Answers(r, init);
      }
    }
  }

  /** With sweeps the bound holds exactly when a swept bucket would have been full anyway. */
  lemma SweptBoundExactly(rules: Rules)
    requires rules.rps > 0
    ensures SweptBoundStands(rules) <==> Max(rules.burst, rules.rps) as real <= Earned(rules, 600.0)
  {
    assert 600.0 - 2.0 * 0.0 == 600.0;
    if Refills(rules, 0.0) {
      forall es, a, d | Ordinary(es, rules, 0.0) && NoForget(es) && d >= 0.0 ensures WindowOk(es, rules, a, d) {
        SweptWindowBound(es, rules, a, d);
      }
    } else {
      SweptBoundBroken(rules);
    }
  }

  lemma SweptBoundBroken(rules: Rules)
    requires rules.rps > 0 && !Refills(rules, 0.0)
    ensures !SweptBoundStands(rules)
  {
    var t := JustPast(rules, 0.0);
    var es := TwoBursts(rules, 0.0, t, t);
    SweptAdmitsAll(rules, 0.0, t, t);
    TwoBurstsOrdinary(rules, 0.0, t, t);
    TwoBurstsWithin(rules, t);
    GrantedInAll(NONE, es, 0.0, 0.0 + t);
    assert !WindowOk(es, rules, 0.0, t);
  }

  lemma TwoBurstsWithin(rules: Rules, t: real)
    requires rules.rps > 0 && t >= 0.0
    ensures NoForget(TwoBursts(rules, 0.0, t, t)) && Within(TwoBursts(rules, 0.0, t, t), 0.0, 0.0 + t)
  {
    var es := TwoBursts(rules, 0.0, t, t);
    forall i | 0 <= i < |es| ensures !es[i].Forget? && (es[i].Acquire? ==> 0.0 <= es[i].now <= t) {
      TwoBurstsAt(rules, 0.0, t, t, i);
    }
  }

  // ----- how much a new client gets at once -----

  /** n requests at time t, none of them given back. */
  function AtOnce(rules: Rules, t: real, n: nat): seq<Event> {
    if n == 0 then [] else AtOnce(rules, t, n - 1) + [Acquire(n - 1, rules, t)]
  }

  /** The record after them. */
  function Taken(rules: Rules, t: real, n: nat): Option<Client> {
    var burst := Max(rules.burst, rules.rps);
    if n == 0 then None
    else if n <= burst then Some(Client((burst - n) as real, t, n, t))
    else Some(Client(0.0, t, burst, t))
  }

  lemma TakeOne(r: Rec, rules: Rules, t: real, n: nat)
    requires rules.rps > 0 && rules.maxConcurrent <= 0 && r.client == Taken(rules, t, n)
    ensures Step(r, Acquire(n, rules, t)).client == Taken(rules, t, n + 1)
    ensures n < Max(rules.burst, rules.rps) ==> Answer(r, rules, t).Admitted?
    ensures n >= Max(rules.burst, rules.rps) ==> Answer(r, rules, t).TooFast?
  {}

  /** n requests have been answered, the first so many admitted and the others refused as too fast. */
  ghost predicate AsFar(es: seq<Event>, rules: Rules, t: real, n: nat) {
    exists m: nat :: m == n && Run(NONE, es).client == Taken(rules, t, m) && Split(Answers(NONE, es), m, Max(rules.burst, rules.rps))
  }

  ghost predicate Split(vs: seq<Verdict>, n: nat, burst: int) {
    |vs| == n && forall i :: 0 <= i < n ==> if i < burst then vs[i].Admitted? else vs[i].TooFast?
  }

  lemma SplitMore(vs: seq<Verdict>, n: nat, burst: int, v: Verdict)
    requires Split(vs, n, burst) && if n < burst then v.Admitted? else v.TooFast?
    ensures Split(vs + [v], n + 1, burst)
  {}

  lemma AsFarMore(es: seq<Event>, rules: Rules, t: real, n: nat)
    requires rules.rps > 0 && rules.maxConcurrent <= 0 && AsFar(es, rules, t, n)
    ensures AsFar(es + [Acquire(n, rules, t)], rules, t, n + 1)
  {
    var r := Run(NONE, es);
    OneMore(NONE, es, Acquire(n, rules, t));
    TakeOne(r, rules, t, n);
    SplitMore(Answers(NONE, es), n, Max(rules.burst, rules.rps), Answer(r, rules, t));
  }

  lemma AsFarNone(rules: Rules, t: real)
    ensures AsFar([], rules, t, 0)
  {
    assert Split(Answers(NONE, []), 0, Max(rules.burst, rules.rps));
  }

  lemma {:induction false} AtOnceAsFar(rules: Rules, t: real, n: nat)
    requires rules.rps > 0 && rules.maxConcurrent <= 0
    ensures AsFar(AtOnce(rules, t, n), rules, t, n)
  {
    if n == 0 {
      AsFarNone(rules, t);
    } else {
      AtOnceAsFar(rules, t, n - 1);
      AsFarMore(AtOnce(rules, t, n - 1), rules, t, n - 1);
    }
  }

  /** With a positive rate and no concurrency limit a new client's requests at one moment are admitted
      up to the larger of burst and rate, and refused as too fast from there on. */
  lemma BurstExactly(rules: Rules, t: real, n: nat)
    requires rules.rps > 0 && rules.maxConcurrent <= 0
    ensures var vs := Answers(NONE, AtOnce(rules, t, n));
            && |vs| == n
            && (forall i :: 0 <= i < n ==> (vs[i].Admitted? <==> i < rules.burst || i < rules.rps))
            && (forall i :: 0 <= i < n ==> (vs[i].TooFast? <==> i >= rules.burst && i >= rules.rps))
  {
    AtOnceAsFar(rules, t, n);
  }
}

/** Failed sign-ins of a source that keeps several attempts going at once, with sweeps at any moment:
    the most failures a window can record, and a run that records them.
 */
module LoginRuns {
  import opened Basics
  import opened LoginLimiter

  /** The entry, the attempts let through that have not failed yet, and the times of the failures. */
  datatype State = State(entry: Option<Attempts>, going: nat, at: seq<real>)

  const FRESH := State(None, 0, [])

  /** The source has at most p attempts going: one too many is not made. */
  function Next(s: State, ev: Event, p: nat): State {
    match ev
    case Ask(now) =>
      if s.going >= p then s
      else if Blocked(s.entry, now) then s
      else s.(entry := Asked(s.entry, now), going := s.going + 1)
    case Fail(now) => if s.going == 0 then s else State(Failed(s.entry, now), s.going - 1, s.at + [now])
    case Succeed => s.(entry := None)
    case Sweep(now) => s.(entry := SweptOf(s.entry, now))
  }

  function RunFrom(s: State, es: seq<Event>, p: nat): State {
    if es == [] then s else Next(RunFrom(s, es[..|es| - 1], p), es[|es| - 1], p)
  }

  /** The failures recorded in the half-open window that begins at a. */
  function Recorded(at: seq<real>, a: real): nat {
    if at == [] then 0
    else Recorded(at[..|at| - 1], a) + if a <= at[|at| - 1] < a + 15.0 then 1 else 0
  }

  function Most(p: nat): int { 2 * LOGIN_BURST + 2 * p - 4 }

  // ----- the bound -----

  ghost predicate Sane(s: State, p: nat, now: real) {
    && s.going <= p
    && (s.entry.Some? ==>
          var e := s.entry.value;
          && e.failures >= 1 && e.first <= now
          && (e.failures < LOGIN_BURST ==> e.blockedUntil.None?)
          && (e.failures >= LOGIN_BURST ==> e.blockedUntil.Some? && e.blockedUntil.value >= e.first + LOGIN_BLOCK && s.going < p))
  }

  /** How many more failures the window that begins at a can still record. */
  function Room(s: State, a: real, p: nat): int {
    var all := LOGIN_BURST + p - 1;
    match s.entry
    case None => all
    case Some(e) =>
      if e.first >= a then
        if e.failures < LOGIN_BURST then LOGIN_BURST - e.failures + p - 1 else s.going
      else if e.failures < LOGIN_BURST then all + LOGIN_BURST - e.failures + p - 2
      else if e.blockedUntil.Some? && e.blockedUntil.value >= a + LOGIN_WINDOW then
        if s.going == 0 then 0 else all + s.going - 1
      else all + if s.going == 0 then 0 else s.going - 1
  }

  lemma NextSane(s: State, ev: Event, p: nat, now: real)
    requires p > 0 && Sane(s, p, now) && !ev.Succeed? && now <= ev.now
    ensures Sane(Next(s, ev, p), p, ev.now)
  {}

  lemma RoomBefore(s: State, a: real, p: nat, now: real)
    requires p > 0 && Sane(s, p, now) && now < a
    ensures Room(s, a, p) <= Most(p)
  {}

  /** Inside the window a failure takes room and nothing else makes any. */
  lemma RoomShrinks(s: State, ev: Event, a: real, p: nat, now: real)
    requires p > 0 && Sane(s, p, now) && !ev.Succeed? && now <= ev.now && a <= ev.now < a + LOGIN_WINDOW
    ensures Room(Next(s, ev, p), a, p) + (if ev.Fail? && s.going > 0 then 1 else 0) <= Room(s, a, p)
    ensures Room(Next(s, ev, p), a, p) >= 0
  {}

  lemma RecordedMore(at: seq<real>, t: real, a: real)
    ensures Recorded(at + [t], a) == Recorded(at, a) + if a <= t < a + LOGIN_WINDOW then 1 else 0
  {
    assert (at + [t])[..|at|] == at;
  }

  /** The account of the window at time now. */
  ghost predicate Account(s: State, a: real, p: nat, now: real) {
    && Sane(s, p, now) && Recorded(s.at, a) <= Most(p)
    && (now < a ==> Recorded(s.at, a) == 0)
    && (now < a + LOGIN_WINDOW ==> Recorded(s.at, a) + Room(s, a, p) <= Most(p))
  }

  lemma NextAccount(s: State, ev: Event, a: real, p: nat, now: real)
    requires p > 0 && Account(s, a, p, now) && !ev.Succeed? && now <= ev.now
    ensures Account(Next(s, ev, p), a, p, ev.now)
  {
    NextSane(s, ev, p, now);
    if ev.Fail? && s.going > 0 { RecordedMore(s.at, ev.now, a); }
    if ev.now < a {
      RoomBefore(Next(s, ev, p), a, p, ev.now);
    } else if ev.now < a + LOGIN_WINDOW {
      RoomShrinks(s, ev, a, p, now);
    }
  }

  ghost predicate NoSuccess(es: seq<Event>) {
    forall i :: 0 <= i < |es| ==> !es[i].Succeed?
  }

  /** The account holds, as of some moment up to now. */
  ghost predicate Kept(s: State, a: real, p: nat, now: real) {
    exists t :: t <= now && Account(s, a, p, t)
  }

  lemma KeptFresh(a: real, p: nat, now: real)
    requires p > 0
    ensures Kept(FRESH, a, p, now)
  {
    var t := if now < a then now else a;
    assert Recorded([], a) == 0;
    assert Account(FRESH, a, p, t);
  }

  lemma KeptNext(s: State, ev: Event, a: real, p: nat, now: real)
    requires p > 0 && !ev.Succeed? && ev.now <= now && Kept(s, a, p, ev.now)
    ensures Kept(Next(s, ev, p), a, p, now)
  {
    var t :| t <= ev.now && Account(s, a, p, t);
    NextAccount(s, ev, a, p, t);
  }

  lemma {:induction false} RunAccount(es: seq<Event>, a: real, p: nat, now: real)
    requires p > 0 && Monotone(es) && NoSuccess(es) && forall i :: 0 <= i < |es| ==> es[i].now <= now
    ensures Kept(RunFrom(FRESH, es, p), a, p, now)
  {
    if es == [] {
      KeptFresh(a, p, now);
    } else {
      var n := |es| - 1;
      RunAccount(es[..n], a, p, es[n].now);
      KeptNext(RunFrom(FRESH, es[..n], p), es[n], a, p, now);
    }
  }

  /** With at most p attempts going at once, sweeps anywhere, time that does not go back and no
      success, no half-open fifteen minutes record more than 2 * p + 6 failures. */
  lemma FailuresBounded(es: seq<Event>, a: real, p: nat)
    requires p > 0 && Monotone(es) && NoSuccess(es)
    ensures Recorded(RunFrom(FRESH, es, p).at, a) <= 2 * p + 6
  {
    if es != [] {
      var t := Latest(es, 0);
      RunAccount(es, a, p, t);
    }
  }

  // ----- and it is attained -----

  lemma RunMore(s: State, es: seq<Event>, ev: Event, p: nat)
    ensures RunFrom(s, es + [ev], p) == Next(RunFrom(s, es, p), ev, p)
  {
    assert (es + [ev])[..|es|] == es;
  }

  lemma {:induction false} RunAppend(s: State, a: seq<Event>, b: seq<Event>, p: nat)
    ensures RunFrom(s, a + b, p) == RunFrom(RunFrom(s, a, p), b, p)
  {
    if b == [] {
      assert a + b == a;
    } else {
      RunAppend(s, a, b[..|b| - 1], p);
      assert a + b == (a + b[..|b| - 1]) + [b[|b| - 1]];
      RunMore(s, a + b[..|b| - 1], b[|b| - 1], p);
    }
  }

  function Times(ev: Event, n: nat): seq<Event> {
    if n == 0 then [] else Times(ev, n - 1) + [ev]
  }

  function Stamps(t: real, n: nat): seq<real> {
    if n == 0 then [] else Stamps(t, n - 1) + [t]
  }

  lemma {:induction false} RecordedStamps(at: seq<real>, t: real, n: nat, a: real)
    ensures Recorded(at + Stamps(t, n), a) == Recorded(at, a) + if a <= t < a + LOGIN_WINDOW then n else 0
  {
    if n == 0 {
      assert at + Stamps(t, 0) == at;
    } else {
      RecordedStamps(at, t, n - 1, a);
      assert at + Stamps(t, n) == (at + Stamps(t, n - 1)) + [t];
      RecordedMore(at + Stamps(t, n - 1), t, a);
    }
  }

  /** n attempts begin together. */
  lemma {:induction false} ManyAsk(s: State, t: real, n: nat, p: nat)
    requires s.going + n <= p && (s.entry.Some? ==> s.entry.value.blockedUntil.None?)
    ensures RunFrom(s, Times(Ask(t), n), p) == s.(going := s.going + n)
  {
    if n > 0 {
      ManyAsk(s, t, n - 1, p);
      RunMore(s, Times(Ask(t), n - 1), Ask(t), p);
    }
  }

  /** n attempts of a full group fail together: the block is renewed. */
  function AllFail(s: State, t: real, n: nat): State
    requires n <= s.going && s.entry.Some?
  {
    var e := s.entry.value;
    State(Some(Attempts(e.failures + n, e.first, if n == 0 then e.blockedUntil else Some(t + LOGIN_BLOCK))),
          s.going - n, s.at + Stamps(t, n))
  }

  lemma AllFailMore(s: State, t: real, n: nat, p: nat)
    requires n < s.going && s.entry.Some? && s.entry.value.failures >= LOGIN_BURST && t - s.entry.value.first <= LOGIN_WINDOW
    ensures Next(AllFail(s, t, n), Fail(t), p) == AllFail(s, t, n + 1)
  {
    assert s.at + Stamps(t, n + 1) == (s.at + Stamps(t, n)) + [t];
  }

  lemma NoneFail(s: State, t: real)
    requires s.entry.Some?
    ensures AllFail(s, t, 0) == s
  {
    assert s.at + Stamps(t, 0) == s.at;
  }

  lemma {:induction false} ManyFail(s: State, t: real, n: nat, p: nat)
    requires n <= s.going && s.entry.Some? && s.entry.value.failures >= LOGIN_BURST && t - s.entry.value.first <= LOGIN_WINDOW
    ensures RunFrom(s, Times(Fail(t), n), p) == AllFail(s, t, n)
  {
    if n == 0 {
      NoneFail(s, t);
    } else {
      ManyFail(s, t, n - 1, p);
      FailOnce(s, Times(Fail(t), n - 1), t, n - 1, p);
    }
  }

  lemma FailOnce(s: State, es: seq<Event>, t: real, n: nat, p: nat)
    requires n < s.going && s.entry.Some? && s.entry.value.failures >= LOGIN_BURST && t - s.entry.value.first <= LOGIN_WINDOW
    requires RunFrom(s, es, p) == AllFail(s, t, n)
    ensures RunFrom(s, es + [Fail(t)], p) == AllFail(s, t, n + 1)
  {
    RunMore(s, es, Fail(t), p);
    AllFailMore(s, t, n, p);
  }

  /** From f failures to one more, with an attempt to replace the one that failed. */
  lemma Cycle(s: State, t: real, p: nat)
    requires s.going == p && p > 0 && s.entry.Some? && s.entry.value.failures + 1 < LOGIN_BURST
    requires s.entry.value.blockedUntil.None? && t - s.entry.value.first <= LOGIN_WINDOW
    ensures var e := s.entry.value;
            RunFrom(s, [Fail(t), Ask(t)], p) == State(Some(Attempts(e.failures + 1, e.first, None)), p, s.at + [t])
  {
    assert [Fail(t), Ask(t)][..1] == [Fail(t)] && [Fail(t)][..0] == [];
    RunMore(s, [], Fail(t), p);
    RunMore(s, [Fail(t)], Ask(t), p);
    assert [] + [Fail(t)] == [Fail(t)] && [Fail(t)] + [Ask(t)] == [Fail(t), Ask(t)];
  }

  /** A group with one failure and nothing going is filled by p attempts at once, down to the last
      that are going when it is full. */
  function Rest(t: real, p: nat): seq<Event> {
    Times(Ask(t), p) + [Fail(t), Ask(t)] + [Fail(t), Ask(t)] + [Fail(t), Ask(t)] + [Fail(t)]
  }

  lemma RestFills(first: real, at: seq<real>, t: real, p: nat)
    requires p > 0 && 0.0 <= t - first <= LOGIN_WINDOW
    ensures RunFrom(State(Some(Attempts(1, first, None)), 0, at), Rest(t, p), p)
         == State(Some(Attempts(5, first, Some(t + LOGIN_BLOCK))), p - 1, at + Stamps(t, 4))
  {
    var s := State(Some(Attempts(1, first, None)), 0, at);
    var asks, pair := Times(Ask(t), p), [Fail(t), Ask(t)];
    ManyAsk(s, t, p, p);
    var s1 := s.(going := p);
    Cycle(s1, t, p);
    RunAppend(s, asks, pair, p);
    var s2 := State(Some(Attempts(2, first, None)), p, at + [t]);
    Cycle(s2, t, p);
    RunAppend(s, asks + pair, pair, p);
    var s3 := State(Some(Attempts(3, first, None)), p, at + [t] + [t]);
    Cycle(s3, t, p);
    RunAppend(s, asks + pair + pair, pair, p);
    RunMore(s, asks + pair + pair + pair, Fail(t), p);
    FourStamps(at, t);
  }

  lemma FourStamps(at: seq<real>, t: real)
    ensures at + Stamps(t, 4) == at + [t] + [t] + [t] + [t]
  {
    assert Stamps(t, 1) == [t];
    assert Stamps(t, 2) == [t] + [t];
    assert Stamps(t, 3) == [t] + [t] + [t];
  }

  lemma OneFails(t: real, p: nat)
    requires p > 0
    ensures RunFrom(FRESH, [Ask(t)] + [Fail(t)], p) == State(Some(Attempts(1, t, None)), 0, [t])
  {
    RunMore(FRESH, [], Ask(t), p);
    assert [] + [Ask(t)] == [Ask(t)];
    RunMore(FRESH, [Ask(t)], Fail(t), p);
  }

  // With two attempts going or more: one failure at 0, a full group by 14, whose block the last
  // attempt still going throws away at 16, and a full group again, down to the last attempt.

  function FirstGroup(p: nat): seq<Event>
    requires p >= 2
  {
    [Ask(0.0)] + [Fail(0.0)] + Rest(14.0, p) + Times(Fail(14.0), p - 2)
  }

  function FirstStamps(p: nat): seq<real>
    requires p >= 2
  {
    [0.0] + Stamps(14.0, 4) + Stamps(14.0, p - 2)
  }

  lemma FirstGroupRuns(p: nat)
    requires p >= 2
    ensures var s := RunFrom(FRESH, FirstGroup(p), p);
            s.going == 1 && s.at == FirstStamps(p) && s.entry.Some? && s.entry.value.first == 0.0
  {
    FirstFull(p);
    TailFails([0.0] + Stamps(14.0, 4), p);
    RunAppend(FRESH, [Ask(0.0)] + [Fail(0.0)] + Rest(14.0, p), Times(Fail(14.0), p - 2), p);
  }

  lemma TailFails(at: seq<real>, p: nat)
    requires p >= 2
    ensures var s := RunFrom(State(Some(Attempts(5, 0.0, Some(29.0))), p - 1, at), Times(Fail(14.0), p - 2), p);
            s.going == 1 && s.at == at + Stamps(14.0, p - 2) && s.entry.Some? && s.entry.value.first == 0.0
  {
    ManyFail(State(Some(Attempts(5, 0.0, Some(29.0))), p - 1, at), 14.0, p - 2, p);
  }

  lemma FirstFull(p: nat)
    requires p >= 2
    ensures RunFrom(FRESH, [Ask(0.0)] + [Fail(0.0)] + Rest(14.0, p), p)
         == State(Some(Attempts(5, 0.0, Some(29.0))), p - 1, [0.0] + Stamps(14.0, 4))
  {
    OneFails(0.0, p);
    RestFills(0.0, [0.0], 14.0, p);
    RunAppend(FRESH, [Ask(0.0)] + [Fail(0.0)], Rest(14.0, p), p);
  }

  /** A failure at 16 begins a group that then fills up. */
  function SecondGroup(p: nat): seq<Event>
    requires p >= 1
  {
    [Fail(16.0)] + Rest(16.0, p) + Times(Fail(16.0), p - 1)
  }

  lemma SecondGroupRuns(s: State, p: nat)
    requires p >= 1 && s.going == 1 && (s.entry.Some? ==> s.entry.value.first <= 0.0)
    ensures RunFrom(s, SecondGroup(p), p).at == s.at + [16.0] + Stamps(16.0, 4) + Stamps(16.0, p - 1)
  {
    RunMore(s, [], Fail(16.0), p);
    assert [] + [Fail(16.0)] == [Fail(16.0)];
    var b := State(Some(Attempts(1, 16.0, None)), 0, s.at + [16.0]);
    RestFills(16.0, b.at, 16.0, p);
    RunAppend(s, [Fail(16.0)], Rest(16.0, p), p);
    var c := State(Some(Attempts(5, 16.0, Some(31.0))), p - 1, b.at + Stamps(16.0, 4));
    ManyFail(c, 16.0, p - 1, p);
    RunAppend(s, [Fail(16.0)] + Rest(16.0, p), Times(Fail(16.0), p - 1), p);
  }

  lemma SecondGroupRecords(at: seq<real>, end: seq<real>, n: nat, a: real)
    requires a <= 16.0 < a + LOGIN_WINDOW && end == at + [16.0] + Stamps(16.0, 4) + Stamps(16.0, n)
    ensures Recorded(end, a) == Recorded(at, a) + 5 + n
  {
    RecordedMore(at, 16.0, a);
    RecordedStamps(at + [16.0], 16.0, 4, a);
    RecordedStamps(at + [16.0] + Stamps(16.0, 4), 16.0, n, a);
  }

  lemma FirstGroupRecords(p: nat)
    requires p >= 2
    ensures Recorded(FirstStamps(p), 14.0) == 4 + p - 2
  {
    RecordedMore([], 0.0, 14.0);
    assert [] + [0.0] == [0.0];
    RecordedStamps([0.0], 14.0, 4, 14.0);
    RecordedStamps([0.0] + Stamps(14.0, 4), 14.0, p - 2, 14.0);
  }

  // With one attempt at a time: one failure at 0, three at 15, and a full group at 16.

  function Slow(): seq<Event> { [Ask(0.0)] + [Fail(0.0)] + [Ask(15.0)] + [Fail(15.0)] + [Ask(15.0)] + [Fail(15.0)] + [Ask(15.0)] + [Fail(15.0)] + [Ask(16.0)] }

  lemma AskAndFail(s: State, es: seq<Event>, t: real)
    requires var e := RunFrom(s, es, 1).entry;
             RunFrom(s, es, 1).going == 0 && e.Some? && e.value.blockedUntil.None? && e.value.failures + 1 < LOGIN_BURST && t - e.value.first <= LOGIN_WINDOW
    ensures var was := RunFrom(s, es, 1);
            var e := was.entry.value;
            RunFrom(s, es + [Ask(t)] + [Fail(t)], 1) == State(Some(Attempts(e.failures + 1, e.first, None)), 0, was.at + [t])
  {
    RunMore(s, es, Ask(t), 1);
    RunMore(s, es + [Ask(t)], Fail(t), 1);
  }

  lemma SlowRuns()
    ensures var s := RunFrom(FRESH, Slow(), 1);
            s.going == 1 && s.at == [0.0] + [15.0] + [15.0] + [15.0] && s.entry.Some? && s.entry.value.first == 0.0
  {
    var a := [Ask(0.0)] + [Fail(0.0)];
    OneFails(0.0, 1);
    AskAndFail(FRESH, a, 15.0);
    var b := a + [Ask(15.0)] + [Fail(15.0)];
    AskAndFail(FRESH, b, 15.0);
    var c := b + [Ask(15.0)] + [Fail(15.0)];
    AskAndFail(FRESH, c, 15.0);
    RunMore(FRESH, c + [Ask(15.0)] + [Fail(15.0)], Ask(16.0), 1);
  }

  lemma SlowRecords()
    ensures Recorded([0.0] + [15.0] + [15.0] + [15.0], 15.0) == 3
  {
    RecordedMore([], 0.0, 15.0);
    assert [] + [0.0] == [0.0];
    RecordedMore([0.0], 15.0, 15.0);
    RecordedMore([0.0] + [15.0], 15.0, 15.0);
    RecordedMore([0.0] + [15.0] + [15.0], 15.0, 15.0);
  }

  // ----- time in these runs -----

  /** In time order, from lo to hi, and without a success. */
  ghost predicate Timed(es: seq<Event>, lo: real, hi: real) {
    && Monotone(es) && NoSuccess(es)
    && forall i :: 0 <= i < |es| ==> lo <= es[i].now <= hi
  }

  lemma TimedAppend(a: seq<Event>, b: seq<Event>, lo: real, mid: real, hi: real)
    requires Timed(a, lo, mid) && Timed(b, mid, hi) && lo <= mid <= hi
    ensures Timed(a + b, lo, hi)
  {
    var all := a + b;
    forall i | 0 <= i < |all| ensures !all[i].Succeed? && lo <= all[i].now <= hi && (i < |a| ==> all[i].now <= mid) && (i >= |a| ==> mid <= all[i].now) {
      if i < |a| { assert all[i] == a[i]; } else { assert all[i] == b[i - |a|]; }
    }
    forall i, j | 0 <= i < j < |all| && !all[i].Succeed? && !all[j].Succeed? ensures all[i].now <= all[j].now {
      if j < |a| { assert all[i] == a[i] && all[j] == a[j]; } else if i >= |a| { assert all[i] == b[i - |a|] && all[j] == b[j - |a|]; }
    }
  }

  /** Everything at one moment. */
  ghost predicate AllAt(es: seq<Event>, t: real) {
    forall i :: 0 <= i < |es| ==> !es[i].Succeed? && es[i].now == t
  }

  lemma AllAtTimed(es: seq<Event>, t: real)
    requires AllAt(es, t)
    ensures Timed(es, t, t)
  {}

  lemma {:induction false} TimesAllAt(ev: Event, n: nat)
    requires !ev.Succeed?
    ensures AllAt(Times(ev, n), ev.now)
  {
    if n > 0 { TimesAllAt(ev, n - 1); }
  }

  lemma RestAllAt(t: real, p: nat)
    ensures AllAt(Rest(t, p), t)
  {
    TimesAllAt(Ask(t), p);
  }

  lemma FirstGroupTimed(p: nat)
    requires p >= 2
    ensures Timed(FirstGroup(p), 0.0, 16.0)
  {
    var a, b := [Ask(0.0)] + [Fail(0.0)], Rest(14.0, p) + Times(Fail(14.0), p - 2);
    RestAllAt(14.0, p);
    TimesAllAt(Fail(14.0), p - 2);
    AllAtTimed(a, 0.0);
    AllAtTimed(b, 14.0);
    TimedWiden(a, 0.0, 0.0, 14.0);
    TimedAppend(a, b, 0.0, 14.0, 14.0);
    TimedWiden(a + b, 0.0, 14.0, 16.0);
    assert FirstGroup(p) == a + b;
  }

  lemma TimedWiden(es: seq<Event>, lo: real, hi: real, more: real)
    requires Timed(es, lo, hi) && hi <= more
    ensures Timed(es, lo, more)
  {}

  lemma SecondGroupTimed(p: nat)
    requires p >= 1
    ensures Timed(SecondGroup(p), 16.0, 16.0)
  {
    RestAllAt(16.0, p);
    TimesAllAt(Fail(16.0), p - 1);
    AllAtTimed(SecondGroup(p), 16.0);
  }

  lemma SlowTimed()
    ensures Timed(Slow(), 0.0, 16.0)
  {}

  /** Ready for a second group that fills the window. */
  ghost predicate Ready(first: seq<Event>, p: nat, a: real) {
    && Timed(first, 0.0, 16.0) && a <= 16.0 < a + LOGIN_WINDOW
    && var s := RunFrom(FRESH, first, p);
    && s.going == 1 && (s.entry.Some? ==> s.entry.value.first <= 0.0) && Recorded(s.at, a) + 4 + p == Most(p)
  }

  lemma SlowReady()
    ensures Ready(Slow(), 1, 15.0)
  {
    SlowTimed();
    SlowRuns();
    SlowRecords();
  }

  lemma FirstReady(p: nat)
    requires p >= 2
    ensures Ready(FirstGroup(p), p, 14.0)
  {
    FirstGroupTimed(p);
    FirstGroupRuns(p);
    FirstGroupRecords(p);
  }

  lemma ReadyRecords(first: seq<Event>, p: nat, a: real)
    requires p > 0 && Ready(first, p, a)
    ensures Recorded(RunFrom(FRESH, first + SecondGroup(p), p).at, a) == Most(p)
  {
    RunAppend(FRESH, first, SecondGroup(p), p);
    SecondAdds(RunFrom(FRESH, first, p), p, a);
  }

  lemma SecondAdds(s: State, p: nat, a: real)
    requires p > 0 && s.going == 1 && (s.entry.Some? ==> s.entry.value.first <= 0.0) && a <= 16.0 < a + LOGIN_WINDOW
    ensures Recorded(RunFrom(s, SecondGroup(p), p).at, a) == Recorded(s.at, a) + 4 + p
  {
    SecondGroupRuns(s, p);
    SecondGroupRecords(s.at, RunFrom(s, SecondGroup(p), p).at, p - 1, a);
  }

  lemma ReadyTimed(first: seq<Event>, p: nat, a: real)
    requires p > 0 && Ready(first, p, a)
    ensures Monotone(first + SecondGroup(p)) && NoSuccess(first + SecondGroup(p))
  {
    SecondGroupTimed(p);
    TimedAppend(first, SecondGroup(p), 0.0, 16.0, 16.0);
  }

  /** A run that records exactly so many. */
  ghost predicate Attains(es: seq<Event>, a: real, p: nat) {
    Monotone(es) && NoSuccess(es) && Recorded(RunFrom(FRESH, es, p).at, a) == Most(p)
  }

  /** For every number of attempts kept going some run records exactly that many: with one, eight. */
  lemma MostIsAttained(p: nat)
    requires p > 0
    ensures exists es, a :: Monotone(es) && NoSuccess(es) && Recorded(RunFrom(FRESH, es, p).at, a) == 2 * p + 6
  {
    if p == 1 {
      SlowReady();
      ReadyAttains(Slow(), p, 15.0);
    } else {
      FirstReady(p);
      ReadyAttains(FirstGroup(p), p, 14.0);
    }
  }

  lemma ReadyAttains(first: seq<Event>, p: nat, a: real)
    requires p > 0 && Ready(first, p, a)
    ensures Attains(first + SecondGroup(p), a, p)
  {
    ReadyRecords(first, p, a);
    ReadyTimed(first, p, a);
  }
}

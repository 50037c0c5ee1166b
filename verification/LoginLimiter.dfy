/** Throttling failed sign-ins per source: how many failures a source can record, and that
    sweeping expired entries is invisible.
 */
module LoginLimiter {
  import opened Basics

  const LOGIN_BURST: nat := 5
  /** Minutes. */
  const LOGIN_WINDOW: real := 15.0
  const LOGIN_BLOCK: real := 15.0

  /** blockedUntil is None until the burst is used up. */
  datatype Attempts = Attempts(failures: nat, first: real, blockedUntil: Option<real>)

  predicate Blocked(e: Option<Attempts>, now: real) {
    e.Some? && e.value.blockedUntil.Some? && now < e.value.blockedUntil.value
  }

  /** What asking leaves behind: an entry whose block has run out is dropped. */
  function Asked(e: Option<Attempts>, now: real): Option<Attempts> {
    if e.Some? && e.value.blockedUntil.Some? && !Blocked(e, now) then None else e
  }

  function Failed(e: Option<Attempts>, now: real): Option<Attempts> {
    if e.None? || now - e.value.first > LOGIN_WINDOW then Some(Attempts(1, now, None))
    else
      var f := e.value.failures + 1;
      Some(Attempts(f, e.value.first, if f >= LOGIN_BURST then Some(now + LOGIN_BLOCK) else e.value.blockedUntil))
  }

  /** Past its block, if it has one, and past its window. */
  predicate Expired(a: Attempts, now: real) {
    (a.blockedUntil.Some? ==> now > a.blockedUntil.value) && now - a.first > LOGIN_WINDOW
  }

  function SweptOf(e: Option<Attempts>, now: real): Option<Attempts> {
    if e.Some? && Expired(e.value, now) then None else e
  }

  // ----- the limiter as the server runs it -----

  function At(m: map<string, Attempts>, k: string): Option<Attempts> {
    if k in m then Some(m[k]) else None
  }

  class Limiter {
    var entries: map<string, Attempts>

    constructor ()
      ensures entries == map[]
    {
      entries := map[];
    }

    method Allow(key: string, now: real) returns (ok: bool, retryAfter: real)
      modifies this
      ensures ok <==> !Blocked(old(At(entries, key)), now)
      ensures !ok ==> retryAfter > 0.0 && !Blocked(At(entries, key), now + retryAfter)
      ensures At(entries, key) == Asked(old(At(entries, key)), now)
      ensures forall k :: k != key ==> At(entries, k) == old(At(entries, k))
    {
      if key !in entries { return true, 0.0; }
      var e := entries[key];
      if e.blockedUntil.Some? && now < e.blockedUntil.value {
        return false, e.blockedUntil.value - now;
      }
      if e.blockedUntil.Some? {
        entries := entries - {key};
      }
      return true, 0.0;
    }

    method RecordFailure(key: string, now: real)
      modifies this
      ensures At(entries, key) == Failed(old(At(entries, key)), now)
      ensures forall k :: k != key ==> At(entries, k) == old(At(entries, k))
    {
      if key !in entries || now - entries[key].first > LOGIN_WINDOW {
        entries := entries[key := Attempts(1, now, None)];
        return;
      }
      var e := entries[key];
      e := e.(failures := e.failures + 1);
      if e.failures >= LOGIN_BURST {
        e := e.(blockedUntil := Some(now + LOGIN_BLOCK));
      }
      entries := entries[key := e];
    }

    method RecordSuccess(key: string)
      modifies this
      ensures entries == old(entries) - {key}
    {
      entries := entries - {key};
    }

    method Sweep(now: real)
      modifies this
      ensures forall k :: At(entries, k) == SweptOf(old(At(entries, k)), now)
      ensures forall k :: k in entries <==>
                && k in old(entries)
                && var e := old(entries)[k];
                (e.blockedUntil.Some? && now <= e.blockedUntil.value) || now - e.first <= 15.0
    {
      var keys := entries.Keys;
      while keys != {}
        invariant keys <= entries.Keys
        invariant forall k :: k in keys ==> At(entries, k) == old(At(entries, k))
        invariant forall k :: k !in keys ==> At(entries, k) == SweptOf(old(At(entries, k)), now)
        decreases |keys|
      {
        var k :| k in keys;
        keys := keys - {k};
        if Expired(entries[k], now) {
          entries := entries - {k};
        }
      }
    }
  }

  // ----- sweeping is invisible -----

  datatype Event = Ask(now: real) | Fail(now: real) | Succeed | Sweep(now: real)

  function Step(e: Option<Attempts>, ev: Event): Option<Attempts> {
    match ev
    case Ask(now) => Asked(e, now)
    case Fail(now) => Failed(e, now)
    case Succeed => None
    case Sweep(now) => SweptOf(e, now)
  }

  function Run(es: seq<Event>): Option<Attempts> {
    if es == [] then None else Step(Run(es[..|es| - 1]), es[|es| - 1])
  }

  /** Whether each Ask of the run is let through, in order. */
  function Answers(es: seq<Event>): seq<bool> {
    if es == [] then []
    else
      var init, ev := es[..|es| - 1], es[|es| - 1];
      Answers(init) + (if ev.Ask? then [!Blocked(Run(init), ev.now)] else [])
  }

  function NoSweeps(es: seq<Event>): seq<Event> {
    if es == [] then []
    else NoSweeps(es[..|es| - 1]) + (if es[|es| - 1].Sweep? then [] else [es[|es| - 1]])
  }

  ghost predicate Monotone(es: seq<Event>) {
    forall i, j :: 0 <= i < j < |es| && !es[i].Succeed? && !es[j].Succeed? ==> es[i].now <= es[j].now
  }

  /** The swept entry s and the unswept u differ only in that u may be an expired one. */
  ghost predicate Near(s: Option<Attempts>, u: Option<Attempts>, t: real) {
    s == u || (s.None? && u.Some? && Expired(u.value, t))
  }

  lemma StepNear(s: Option<Attempts>, u: Option<Attempts>, t: real, ev: Event)
    requires Near(s, u, t) && (!ev.Succeed? ==> t <= ev.now)
    ensures Near(Step(s, ev), if ev.Sweep? then u else Step(u, ev), if ev.Succeed? then t else ev.now)
    ensures ev.Ask? ==> Blocked(s, ev.now) == Blocked(u, ev.now)
  {}

  lemma OneMore(es: seq<Event>, ev: Event)
    ensures Run(es + [ev]) == Step(Run(es), ev)
    ensures Answers(es + [ev]) == Answers(es) + if ev.Ask? then [!Blocked(Run(es), ev.now)] else []
  {
    assert (es + [ev])[..|es|] == es;
  }

  lemma {:induction false} SweptNear(es: seq<Event>, t: real)
    requires Monotone(es)
    requires forall i :: 0 <= i < |es| && !es[i].Succeed? ==> es[i].now <= t
    ensures Near(Run(es), Run(NoSweeps(es)), t)
    ensures Answers(es) == Answers(NoSweeps(es))
  {
    if es != [] {
      var init, ev := es[..|es| - 1], es[|es| - 1];
      var at := if ev.Succeed? then t else ev.now;
      SweptNear(init, at);
      StepNear(Run(init), Run(NoSweeps(init)), at, ev);
      if ev.Sweep? {
        assert NoSweeps(es) == NoSweeps(init) && Answers(es) == Answers(init);
      } else {
        OneMore(NoSweeps(init), ev);
      }
    }
  }

  lemma {:induction false} Latest(es: seq<Event>, i: nat) returns (t: real)
    requires i < |es| && !es[i].Succeed? && Monotone(es)
    ensures forall j :: 0 <= j < |es| && !es[j].Succeed? ==> es[j].now <= t
    decreases |es| - i
  {
    if k :| i < k < |es| && !es[k].Succeed? {
      t := Latest(es, k);
    } else {
      t := es[i].now;
    }
  }

  /** With a clock that does not go back, sweeping at any moments changes no answer. */
  lemma SweepsInvisible(es: seq<Event>)
    requires Monotone(es)
    ensures Answers(es) == Answers(NoSweeps(es))
  {
    if exists i :: 0 <= i < |es| && !es[i].Succeed? {
      var i :| 0 <= i < |es| && !es[i].Succeed?;
      var t := Latest(es, i);
      SweptNear(es, t);
    } else {
      SweptNear(es, 0.0);
    }
  }

  // ----- how many failures get through -----

  /** One sequential attempt with a wrong password: ask, and if let through, fail. */
  datatype Try = Try(askAt: real, failAt: real)

  ghost predicate Sequential(ts: seq<Try>) {
    && (forall i :: 0 <= i < |ts| ==> ts[i].askAt <= ts[i].failAt)
    && (forall i :: 0 < i < |ts| ==> ts[i - 1].failAt <= ts[i].askAt)
  }

  /** The entry after the attempts, the times of the recorded failures, and where in them each
      window of counting began. */
  datatype History = History(entry: Option<Attempts>, at: seq<real>, starts: seq<nat>)

  function Tried(h: History, t: Try): History {
    if Blocked(h.entry, t.askAt) then h.(entry := Asked(h.entry, t.askAt))
    else
      var e := Asked(h.entry, t.askAt);
      var begins := e.None? || t.failAt - e.value.first > LOGIN_WINDOW;
      History(Failed(e, t.failAt), h.at + [t.failAt], if begins then h.starts + [|h.at|] else h.starts)
  }

  function Attack(ts: seq<Try>): History {
    if ts == [] then History(None, [], []) else Tried(Attack(ts[..|ts| - 1]), ts[|ts| - 1])
  }

  /** End of group g: where the next one starts, or the end of the history. */
  function End(h: History, g: nat): nat
    requires g < |h.starts|
  {
    if g + 1 < |h.starts| then h.starts[g + 1] else |h.at|
  }

  ghost predicate Ordered(s: seq<real>) {
    forall i, j :: 0 <= i < j < |s| ==> s[i] <= s[j]
  }

  /** The failures fall into groups of at most the burst; the next group begins a block after
      a full one ended, or a window after a short one began. */
  ghost predicate Grouped(h: History) {
    && Ordered(h.at)
    && (h.at != [] ==> h.starts != [] && h.starts[0] == 0)
    && (forall g :: 0 <= g < |h.starts| ==> Sized(h, g))
    && (forall g :: 0 <= g < |h.starts| - 1 ==> Gap(h, g))
  }

  ghost predicate Sized(h: History, g: nat)
    requires g < |h.starts|
  {
    h.starts[g] < End(h, g) <= |h.at| && End(h, g) <= h.starts[g] + LOGIN_BURST
  }

  ghost predicate Gap(h: History, g: nat)
    requires g + 1 < |h.starts|
  {
    var s, e := h.starts[g], h.starts[g + 1];
    && s < e < |h.at|
    && if e - s == LOGIN_BURST then h.at[e] >= h.at[e - 1] + LOGIN_BLOCK else h.at[e] > h.at[s] + LOGIN_WINDOW
  }

  /** The entry remembers the last group. */
  ghost predicate Remembers(h: History, now: real) {
    && (forall i :: 0 <= i < |h.at| ==> h.at[i] <= now)
    && (h.at == [] ==> h.starts == [])
    && match h.entry
       case None =>
         h.at != [] ==> && h.starts != [] && h.starts[|h.starts| - 1] < |h.at|
                        && |h.at| - h.starts[|h.starts| - 1] == LOGIN_BURST
                        && now >= h.at[|h.at| - 1] + LOGIN_BLOCK
       case Some(e) =>
         && h.starts != [] && h.starts[|h.starts| - 1] < |h.at|
         && e.first == h.at[h.starts[|h.starts| - 1]]
         && e.failures == |h.at| - h.starts[|h.starts| - 1] <= LOGIN_BURST
         && e.blockedUntil == if e.failures == LOGIN_BURST then Some(h.at[|h.at| - 1] + LOGIN_BLOCK) else None
  }

  lemma GroupBegins(h: History, x: real, e: Option<Attempts>)
    requires Grouped(h) && (forall i :: 0 <= i < |h.at| ==> h.at[i] <= x)
    requires h.at == [] ==> h.starts == []
    requires h.at != [] ==>
               var s := h.starts[|h.starts| - 1];
               && s < |h.at|
               && if |h.at| - s == LOGIN_BURST then x >= h.at[|h.at| - 1] + LOGIN_BLOCK else x > h.at[s] + LOGIN_WINDOW
    ensures Grouped(History(e, h.at + [x], h.starts + [|h.at|]))
  {
    var n := History(e, h.at + [x], h.starts + [|h.at|]);
    forall g | 0 <= g < |n.starts| ensures Sized(n, g) {
      if g < |h.starts| { assert Sized(h, g); }
    }
    forall g | 0 <= g < |n.starts| - 1 ensures Gap(n, g) {
      assert Sized(h, g);
      if g < |h.starts| - 1 { assert Gap(h, g); }
    }
  }

  lemma GroupGrows(h: History, x: real, e: Option<Attempts>)
    requires Grouped(h) && h.at != [] && (forall i :: 0 <= i < |h.at| ==> h.at[i] <= x)
    requires |h.at| - h.starts[|h.starts| - 1] < LOGIN_BURST
    ensures Grouped(History(e, h.at + [x], h.starts))
  {
    var n := History(e, h.at + [x], h.starts);
    forall g | 0 <= g < |n.starts| ensures Sized(n, g) { assert Sized(h, g); }
    forall g | 0 <= g < |n.starts| - 1 ensures Gap(n, g) { assert Gap(h, g); }
  }

  ghost predicate Sound(h: History, now: real) { Grouped(h) && Remembers(h, now) }

  lemma TriedSound(h: History, now: real, t: Try)
    requires Sound(h, now) && now <= t.askAt <= t.failAt
    ensures Sound(Tried(h, t), t.failAt)
  {
    if !Blocked(h.entry, t.askAt) {
      var e := Asked(h.entry, t.askAt);
      if e.None? || t.failAt - e.value.first > LOGIN_WINDOW {
        GroupBegins(h, t.failAt, Failed(e, t.failAt));
      } else {
        GroupGrows(h, t.failAt, Failed(e, t.failAt));
      }
    }
  }

  lemma {:induction false} AttackSound(ts: seq<Try>, now: real)
    requires Sequential(ts) && (ts != [] ==> ts[|ts| - 1].failAt <= now)
    ensures Sound(Attack(ts), now)
  {
    if ts != [] {
      var init, t := ts[..|ts| - 1], ts[|ts| - 1];
      AttackSound(init, t.askAt);
      TriedSound(Attack(init), t.askAt, t);
      Later(Attack(ts), t.failAt, now);
    }
  }

  lemma Later(h: History, now: real, then_: real)
    requires Sound(h, now) && now <= then_
    ensures Sound(h, then_)
  {}

  lemma {:induction false} GroupOf(h: History, i: nat, g: nat) returns (r: nat)
    requires Grouped(h) && i < |h.at| && g < |h.starts| && h.starts[g] <= i
    ensures r < |h.starts| && h.starts[r] <= i < End(h, r)
    decreases |h.starts| - g
  {
    assert Sized(h, g);
    if i < End(h, g) {
      r := g;
    } else {
      r := GroupOf(h, i, g + 1);
    }
  }

  /** A failure after group g comes a block, or a window, after the point that group fixes. */
  lemma PastGroup(h: History, g: nat, j: nat)
    requires Grouped(h) && g < |h.starts| && End(h, g) <= j < |h.at|
    ensures g + 1 < |h.starts| && Sized(h, g)
    ensures h.at[j] >= (if End(h, g) - h.starts[g] == LOGIN_BURST then h.at[End(h, g) - 1] else h.at[h.starts[g]]) + 15.0
  {
    assert Sized(h, g) && Gap(h, g);
    assert h.at[End(h, g)] <= h.at[j];
  }

  lemma SpanOfNine(h: History, i: nat)
    requires Grouped(h) && i + 2 * LOGIN_BURST - 2 < |h.at|
    ensures h.at[i + 2 * LOGIN_BURST - 2] >= h.at[i] + LOGIN_WINDOW
  {
    var j := i + 2 * LOGIN_BURST - 2;
    var g := GroupOf(h, i, 0);
    var e := End(h, g);
    assert Sized(h, g);
    PastGroup(h, g, j);
    if e - h.starts[g] == LOGIN_BURST || i == h.starts[g] {
      assert h.at[i] <= h.at[e - 1];
    } else {
      assert Sized(h, g + 1);
      PastGroup(h, g + 1, j);
      assert h.at[i] <= h.at[h.starts[g + 1]] <= h.at[End(h, g + 1) - 1];
    }
  }

  ghost predicate InWindow(h: History, i: nat, a: real)
    requires i < |h.at|
  {
    a <= h.at[i] < a + 15.0
  }

  /** Over any run of sequential wrong attempts, however timed, a source records at most
      2 * burst - 2 failures in any half-open window: two recorded failures further apart than
      that in the sequence never share one. */
  lemma FailuresPerWindow(ts: seq<Try>, a: real, i: nat, j: nat)
    requires Sequential(ts)
    requires i <= j < |Attack(ts).at| && InWindow(Attack(ts), i, a) && InWindow(Attack(ts), j, a)
    ensures j - i + 1 <= 8
  {
    AttackSound(ts, if ts == [] then 0.0 else ts[|ts| - 1].failAt);
    var h := Attack(ts);
    if j - i >= 2 * LOGIN_BURST - 2 {
      SpanOfNine(h, i);
    }
  }

  // ----- the groups, read off the failure times alone -----

  /** Where each group of failures begins: a failure begins one when the group before it is full or
      began more than a window earlier. */
  function Groups(at: seq<real>): (g: seq<nat>)
    ensures g == [] <==> at == []
    ensures g != [] ==> g[|g| - 1] < |at|
  {
    if at == [] then []
    else
      var n := |at| - 1;
      var before := Groups(at[..n]);
      if before == [] || n - before[|before| - 1] >= LOGIN_BURST || at[n] - at[before[|before| - 1]] > LOGIN_WINDOW
      then before + [n] else before
  }

  lemma TriedGroups(h: History, now: real, t: Try)
    requires Remembers(h, now) && now <= t.askAt <= t.failAt && h.starts == Groups(h.at)
    ensures Tried(h, t).starts == Groups(Tried(h, t).at)
  {
    if !Blocked(h.entry, t.askAt) {
      assert (h.at + [t.failAt])[..|h.at|] == h.at;
    }
  }

  lemma {:induction false} AttackGroups(ts: seq<Try>)
    requires Sequential(ts)
    ensures Attack(ts).starts == Groups(Attack(ts).at)
  {
    if ts != [] {
      var init, t := ts[..|ts| - 1], ts[|ts| - 1];
      AttackGroups(init);
      AttackSound(init, t.askAt);
      TriedGroups(Attack(init), t.askAt, t);
    }
  }

  /** The failures counted so far in the current group. */
  function InGroup(at: seq<real>): nat {
    var g := Groups(at);
    if at == [] then 0 else |at| - g[|g| - 1]
  }

  /** A source is refused exactly for a block after the failure that used up its burst: the
      current group of failures is full and its last one is less than a block ago. */
  lemma BlockedExactly(ts: seq<Try>, now: real)
    requires Sequential(ts) && (ts != [] ==> ts[|ts| - 1].failAt <= now)
    ensures var at := Attack(ts).at;
            Blocked(Attack(ts).entry, now) <==> InGroup(at) == 5 && now < at[|at| - 1] + 15.0
  {
    AttackSound(ts, now);
    AttackGroups(ts);
    BlockedByGroup(Attack(ts), now);
  }

  lemma BlockedByGroup(h: History, now: real)
    requires Remembers(h, now) && h.starts == Groups(h.at)
    ensures Blocked(h.entry, now) <==> InGroup(h.at) == LOGIN_BURST && now < h.at[|h.at| - 1] + LOGIN_BLOCK
  {}
}

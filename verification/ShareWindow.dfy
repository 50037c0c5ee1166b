/** The rolling window behind the traffic split: cumulative readings become per-tick deltas in
    a ring of thirty buckets with an incrementally kept sum.
 */
module ShareWindow {
  import opened Basics

  const BUCKETS: nat := 30
  const STALE_TICKS: nat := 3

  function Sum(s: seq<nat>): nat {
    if s == [] then 0 else Sum(s[..|s| - 1]) + s[|s| - 1]
  }

  lemma {:induction false} SumAppend(a: seq<nat>, b: seq<nat>)
    ensures Sum(a + b) == Sum(a) + Sum(b)
  {
    if b == [] {
      assert a + b == a;
    } else {
      SumAppend(a, b[..|b| - 1]);
      assert (a + b)[..|a + b| - 1] == a + b[..|b| - 1];
    }
  }

  /** Sliding a full window by one bucket trades its oldest value for the newest. */
  lemma SumSlides(s: seq<nat>, d: nat)
    requires s != []
    ensures s[0] <= Sum(s) && Sum(s[1..] + [d]) == Sum(s) - s[0] + d
  {
    assert s == [s[0]] + s[1..];
    SumAppend([s[0]], s[1..]);
    SumAppend(s[1..], [d]);
    assert [s[0]][..0] == [] && [d][..0] == [];
  }

  // ----- one backend's window -----

  /** recent holds the deltas of the last BUCKETS ticks, oldest first. */
  datatype Win = Win(last: nat, primed: bool, recent: seq<nat>, missed: nat)

  const BLANK := Win(0, false, Zeros(BUCKETS), 0)

  function Zeros(n: nat): (r: seq<nat>)
    ensures |r| == n && forall i :: 0 <= i < n ==> r[i] == 0
  {
    seq(n, _ => 0)
  }

  ghost predicate Valid(w: Win) { |w.recent| == BUCKETS }

  function Slide(s: seq<nat>, d: nat): seq<nat>
    requires s != []
  {
    s[1..] + [d]
  }

  function Delta(last: nat, total: nat): nat { if total >= last then total - last else total }

  function Pushed(w: Win, total: nat): Win
    requires w.recent != []
  {
    if !w.primed then w.(missed := 0, last := total, primed := true)
    else Win(total, true, Slide(w.recent, Delta(w.last, total)), 0)
  }

  function Idled(w: Win): Win
    requires w.recent != []
  {
    w.(missed := w.missed + 1, recent := Slide(w.recent, 0))
  }

  /** The ring read from the oldest bucket on. */
  function Unrolled(b: seq<nat>, next: nat): seq<nat>
    requires next <= |b|
  {
    b[next..] + b[..next]
  }

  lemma SlideAt(s: seq<nat>, d: nat, i: nat)
    requires i < |s|
    ensures Slide(s, d)[i] == if i + 1 < |s| then s[i + 1] else d
  {}

  lemma UnrolledAt(b: seq<nat>, next: nat, i: nat)
    requires next < |b| && i < |b|
    ensures Unrolled(b, next)[i] == if next + i < |b| then b[next + i] else b[next + i - |b|]
  {}

  lemma SlidesAt(b: seq<nat>, next: nat, to: nat, d: nat, i: nat)
    requires next < |b| && to == (if next + 1 < |b| then next + 1 else 0) && i < |b|
    ensures Unrolled(b[next := d], to)[i] == Slide(Unrolled(b, next), d)[i]
  {
    UnrolledAt(b[next := d], to, i);
    SlideAt(Unrolled(b, next), d, i);
    if i + 1 < |b| { UnrolledAt(b, next, i + 1); }
  }

  lemma UnrolledSlides(b: seq<nat>, next: nat, to: nat, d: nat)
    requires next < |b| && to == if next + 1 < |b| then next + 1 else 0
    ensures Unrolled(b[next := d], to) == Slide(Unrolled(b, next), d)
    ensures Unrolled(b, next)[0] == b[next]
  {
    forall i | 0 <= i < |b| ensures Unrolled(b[next := d], to)[i] == Slide(Unrolled(b, next), d)[i] {
      SlidesAt(b, next, to, d, i);
    }
  }

  /** The ring as it is kept: buckets overwritten in place and a sum that never goes below zero. */
  class Ring {
    var last: nat
    var primed: bool
    const buckets: array<nat>
    var next: nat
    var sum: nat
    var missed: nat

    ghost predicate Valid()
      reads this, buckets
    {
      buckets.Length == BUCKETS && next < BUCKETS && sum == Sum(Unrolled(buckets[..], next))
    }

    ghost function View(): Win
      reads this, buckets
      requires Valid()
    {
      Win(last, primed, Unrolled(buckets[..], next), missed)
    }

    constructor ()
      ensures Valid() && View() == BLANK && fresh(buckets)
    {
      last, primed, next, sum, missed := 0, false, 0, 0, 0;
      buckets := new nat[BUCKETS](_ => 0);
      new;
      assert Unrolled(buckets[..], 0) == Zeros(BUCKETS);
      ZeroSum(Zeros(BUCKETS));
    }

    method Advance(d: nat)
      requires Valid()
      modifies `next, `sum, buckets
      ensures Valid() && Unrolled(buckets[..], next) == Slide(old(Unrolled(buckets[..], next)), d)
    {
      ghost var b, n := buckets[..], next;
      UnrolledSlides(b, n, (n + 1) % BUCKETS, d);
      SumSlides(Unrolled(b, n), d);
      sum := sum - buckets[next];
      buckets[next] := d;
      sum := sum + d;
      next := (next + 1) % BUCKETS;
      assert buckets[..] == b[n := d];
    }

    method Push(total: nat)
      requires Valid()
      modifies this, buckets
      ensures Valid() && View() == Pushed(old(View()), total)
    {
      missed := 0;
      if !primed {
        last := total;
        primed := true;
        return;
      }
      var delta := total;
      if total >= last { delta := total - last; }
      last := total;
      Advance(delta);
    }

    method Idle()
      requires Valid()
      modifies this, buckets
      ensures Valid() && View() == Idled(old(View()))
    {
      missed := missed + 1;
      Advance(0);
    }
  }

  // ----- what the window means over a run of ticks -----

  /** One backend's tick: the reading the sampler took, or none when it was not seen. */
  function Tick(w: Option<Win>, reading: Option<nat>): Option<Win>
    requires w.Some? ==> w.value.recent != []
  {
    match reading
    case Some(total) => Some(Pushed(if w.Some? then w.value else BLANK, total))
    case None =>
      if w.None? then None
      else
        var i := Idled(w.value);
        if i.missed >= STALE_TICKS && Sum(i.recent) == 0 then None else Some(i)
  }

  /** A window that is kept, moved by a reading or a miss. */
  function Stepped(w: Win, reading: Option<nat>): (r: Win)
    requires w.recent != []
    ensures |r.recent| == |w.recent|
  {
    match reading
    case Some(total) => Pushed(w, total)
    case None => Idled(w)
  }

  function Follow(w: Win, readings: seq<Option<nat>>): (r: Win)
    requires w.recent != []
    ensures r.recent != []
  {
    if readings == [] then w
    else
      Stepped(Follow(w, readings[..|readings| - 1]), readings[|readings| - 1])
  }

  /** The last reading taken, if any. */
  function LastReading(readings: seq<Option<nat>>): Option<nat> {
    if readings == [] then None
    else if readings[|readings| - 1].Some? then readings[|readings| - 1]
    else LastReading(readings[..|readings| - 1])
  }

  /** What each tick contributes: nothing for the first reading, which only sets a baseline;
      the growth since the last reading; zero for a tick that missed the backend. */
  function Deltas(readings: seq<Option<nat>>): seq<nat> {
    if readings == [] then []
    else
      var init, r := readings[..|readings| - 1], readings[|readings| - 1];
      Deltas(init) +
      match (r, LastReading(init))
      case (None, _) => [0]
      case (Some(_), None) => []
      case (Some(total), Some(last)) => [Delta(last, total)]
  }

  function LastOf(s: seq<nat>, n: nat): seq<nat>
    requires |s| >= n
  {
    s[|s| - n..]
  }

  /** After any readings the window holds the deltas of the last thirty ticks, padded with
      zeros before the backend appeared, so its sum is exactly theirs. */
  lemma {:induction false} WindowIsLastDeltas(readings: seq<Option<nat>>)
    ensures var w := Follow(BLANK, readings);
            && w.recent == LastOf(Zeros(BUCKETS) + Deltas(readings), BUCKETS)
            && (w.primed <==> LastReading(readings).Some?)
            && (w.primed ==> w.last == LastReading(readings).value)
  {
    if readings != [] {
      var init := readings[..|readings| - 1];
      WindowIsLastDeltas(init);
      var all := Zeros(BUCKETS) + Deltas(init);
      assert forall d: nat :: LastOf(all + [d], BUCKETS) == Slide(LastOf(all, BUCKETS), d);
      var more := Deltas(readings)[|Deltas(init)|..];
      assert Zeros(BUCKETS) + Deltas(readings) == all + more;
      assert all + [] == all;
    }
  }

  function Totals(readings: seq<Option<nat>>): seq<nat> {
    if readings == [] then []
    else Totals(readings[..|readings| - 1]) +
         (if readings[|readings| - 1].Some? then [readings[|readings| - 1].value] else [])
  }

  lemma {:induction false} LastOfTotals(readings: seq<Option<nat>>)
    ensures LastReading(readings) ==
            var t := Totals(readings); if t == [] then None else Some(t[|t| - 1])
  {
    if readings != [] { LastOfTotals(readings[..|readings| - 1]); }
  }

  ghost predicate Monotone(s: seq<nat>) {
    forall i, j :: 0 <= i < j < |s| ==> s[i] <= s[j]
  }

  lemma DeltasLast(readings: seq<Option<nat>>)
    requires readings != []
    ensures var init, r := readings[..|readings| - 1], readings[|readings| - 1];
            Sum(Deltas(readings)) == Sum(Deltas(init)) +
              if r.None? || LastReading(init).None? then 0 else Delta(LastReading(init).value, r.value)
  {
    var init := readings[..|readings| - 1];
    var more := Deltas(readings)[|Deltas(init)|..];
    assert Deltas(readings) == Deltas(init) + more;
    SumAppend(Deltas(init), more);
    if |more| == 1 { assert more[..0] == [] && Sum(more) == more[0]; }
  }

  function Growth(t: seq<nat>): int { if t == [] then 0 else t[|t| - 1] as int - t[0] as int }

  lemma MonotoneInit(t: seq<nat>, u: seq<nat>)
    requires Monotone(u) && t <= u
    ensures Monotone(t)
  {
    assert forall i :: 0 <= i < |t| ==> t[i] == u[i];
  }

  /** While totals only grow, all the deltas ever counted add up to the last reading minus the
      first: nothing is counted twice and nothing is lost. */
  lemma {:induction false} DeltasTelescope(readings: seq<Option<nat>>)
    requires Monotone(Totals(readings))
    ensures Sum(Deltas(readings)) == Growth(Totals(readings))
  {
    if readings != [] {
      var init, r := readings[..|readings| - 1], readings[|readings| - 1];
      var t, u := Totals(init), Totals(readings);
      MonotoneInit(t, u);
      DeltasTelescope(init);
      LastOfTotals(init);
      DeltasLast(readings);
      if r.None? {
        assert u == t;
      } else if t != [] {
        assert u[|t| - 1] == t[|t| - 1] && u[0] == t[0] && u[|u| - 1] == r.value;
      }
    }
  }

  /** What was counted before the resets, where a total is below the one before it. */
  function BeforeResets(t: seq<nat>): nat {
    if |t| < 2 then 0
    else BeforeResets(t[..|t| - 1]) + if t[|t| - 1] < t[|t| - 2] then t[|t| - 2] else 0
  }

  /** Over totals that may start again from zero, all the deltas add up to the last reading minus the
      first, and what had been counted before each new start. */
  lemma {:induction false} DeltasOverResets(readings: seq<Option<nat>>)
    ensures Sum(Deltas(readings)) == Growth(Totals(readings)) + BeforeResets(Totals(readings))
  {
    if readings != [] {
      var init, r := readings[..|readings| - 1], readings[|readings| - 1];
      var t, u := Totals(init), Totals(readings);
      DeltasOverResets(init);
      LastOfTotals(init);
      DeltasLast(readings);
      if r.None? {
        assert u == t;
      } else {
        assert u == t + [r.value] && u[..|u| - 1] == t;
      }
    }
  }

  // ----- forgetting a backend that is gone -----

  function Misses(w: Option<Win>, n: nat): (r: Option<Win>)
    requires w.Some? ==> w.value.recent != []
    ensures r.Some? ==> r.value.recent != []
  {
    if n == 0 then w else Tick(Misses(w, n - 1), None)
  }

  ghost predicate Quiet(w: Win, m: nat)
    requires Valid(w)
  {
    m >= STALE_TICKS && forall i :: m <= i < BUCKETS ==> w.recent[i] == 0
  }

  lemma {:induction false} ZeroSum(s: seq<nat>)
    ensures Sum(s) == 0 <==> forall i :: 0 <= i < |s| ==> s[i] == 0
  {
    if s != [] {
      ZeroSum(s[..|s| - 1]);
      assert forall i :: 0 <= i < |s| - 1 ==> s[..|s| - 1][i] == s[i];
    }
  }

  /** The window n misses later, if it were never dropped. */
  function Aged(w: Win, n: nat): Win
    requires |w.recent| == BUCKETS
  {
    w.(missed := w.missed + n,
       recent := if n <= BUCKETS then w.recent[n..] + Zeros(n) else Zeros(BUCKETS))
  }

  lemma AgedOnce(w: Win, n: nat)
    requires Valid(w)
    ensures Aged(w, n + 1) == Idled(Aged(w, n))
  {
    var a, b := Aged(w, n + 1).recent, Slide(Aged(w, n).recent, 0);
    assert |a| == |b|;
    assert forall i :: 0 <= i < |a| ==> a[i] == b[i];
  }

  lemma AgedSum(w: Win, n: nat)
    requires Valid(w)
    ensures Sum(Aged(w, n).recent) == 0 <==> forall i :: n <= i < BUCKETS ==> w.recent[i] == 0
  {
    ZeroSum(Aged(w, n).recent);
    var a := Aged(w, n).recent;
    if n <= BUCKETS {
      assert forall i :: n <= i < BUCKETS ==> a[i - n] == w.recent[i];
    }
  }

  /** A backend just seen is forgotten after n misses exactly when n is at least three and every
      delta in its window has slid out by then. */
  lemma {:induction false} ForgottenExactly(w: Win, n: nat)
    requires Valid(w) && w.missed == 0
    ensures Misses(Some(w), n) == Fate(w, n)
    ensures Misses(Some(w), n).None? <==> n >= 3 && forall i :: n <= i < 30 ==> w.recent[i] == 0
  {
    if n == 0 {
      assert Aged(w, 0).recent == w.recent;
    } else {
      ForgottenExactly(w, n - 1);
      FateOnce(w, n);
    }
  }

  ghost function Fate(w: Win, n: nat): (r: Option<Win>)
    requires Valid(w)
    ensures r.Some? ==> r.value.recent != []
  {
    if Quiet(w, n) then None else Some(Aged(w, n))
  }

  lemma FateOnce(w: Win, n: nat)
    requires Valid(w) && w.missed == 0 && n > 0
    ensures Tick(Fate(w, n - 1), None) == Fate(w, n)
  {
    if Quiet(w, n - 1) {
      assert Quiet(w, n);
    } else {
      MissOnce(w, n);
    }
  }

  lemma MissOnce(w: Win, n: nat)
    requires Valid(w) && w.missed == 0 && n > 0
    ensures Tick(Some(Aged(w, n - 1)), None) == if Quiet(w, n) then None else Some(Aged(w, n))
  {
    AgedOnce(w, n - 1);
    AgedSum(w, n);
    var i := Idled(Aged(w, n - 1));
    assert i == Aged(w, n) && i.missed == n;
  }

  lemma ForgottenWithinWindow(w: Win)
    requires Valid(w) && w.missed == 0
    ensures Misses(Some(w), BUCKETS).None?
  {
    ForgottenExactly(w, BUCKETS);
  }

  // ----- a backend that comes and goes -----

  /** One backend over a run of ticks, forgotten when stale and begun anew when seen again. */
  function Ticks(readings: seq<Option<nat>>): (r: Option<Win>)
    ensures r.Some? ==> |r.value.recent| == BUCKETS
  {
    if readings == [] then None else Tick(Ticks(readings[..|readings| - 1]), readings[|readings| - 1])
  }

  lemma KeptIsStepped(w: Win, reading: Option<nat>)
    requires w.recent != []
    ensures Tick(Some(w), reading).None? || Tick(Some(w), reading) == Some(Stepped(w, reading))
  {}

  lemma FollowMore(readings: seq<Option<nat>>, n: nat)
    requires n < |readings|
    ensures Follow(BLANK, readings[n..]) == Stepped(Follow(BLANK, readings[n..|readings| - 1]), readings[|readings| - 1])
  {
    var tail := readings[n..];
    assert tail[..|tail| - 1] == readings[n..|readings| - 1] && tail[|tail| - 1] == readings[|readings| - 1];
  }

  /** At every moment the window of a backend that is not forgotten holds exactly the deltas of the
      last thirty ticks since it was last taken up, at tick n. */
  lemma {:induction false} WindowSinceTakenUp(readings: seq<Option<nat>>) returns (n: nat)
    requires Ticks(readings).Some?
    ensures n < |readings| && Ticks(readings[..n]).None? && readings[n].Some?
    ensures forall m :: n < m <= |readings| ==> Ticks(readings[..m]).Some?
    ensures Ticks(readings) == Some(Follow(BLANK, readings[n..]))
    ensures Ticks(readings).value.recent == LastOf(Zeros(BUCKETS) + Deltas(readings[n..]), BUCKETS)
  {
    var last := |readings| - 1;
    var init := readings[..last];
    assert readings[..|readings|] == readings;
    if Ticks(init).Some? {
      n := WindowSinceTakenUp(init);
      forall m | n < m <= |readings| ensures Ticks(readings[..m]).Some? {
        if m <= last { assert init[..m] == readings[..m]; }
      }
      assert init[..n] == readings[..n] && init[n..] == readings[n..last];
      FollowMore(readings, n);
      KeptIsStepped(Ticks(init).value, readings[last]);
    } else {
      n := last;
      FollowMore(readings, n);
      assert readings[n..last] == [];
    }
    WindowIsLastDeltas(readings[n..]);
  }

  // ----- the whole collector -----

  datatype Key = Key(host: int, address: string)

  ghost function At(shares: map<Key, Win>, k: Key): Option<Win> {
    if k in shares then Some(shares[k]) else None
  }

  /** The readings one tick takes of backend k; more than one when a location reuses its address. */
  ghost function ReadingsOf(readings: seq<(Key, nat)>, k: Key): seq<nat> {
    if readings == [] then []
    else
      var (key, total) := readings[|readings| - 1];
      ReadingsOf(readings[..|readings| - 1], k) + if key == k then [total] else []
  }

  ghost predicate Sized(w: Option<Win>) { w.Some? ==> |w.value.recent| == BUCKETS }

  ghost function PushedAll(w: Option<Win>, totals: seq<nat>): (r: Option<Win>)
    requires Sized(w)
    ensures Sized(r)
  {
    if totals == [] then w else Tick(PushedAll(w, totals[..|totals| - 1]), Some(totals[|totals| - 1]))
  }

  /** One tick of a backend: its readings one after the other, or a miss when there is none. */
  ghost function TickAll(w: Option<Win>, totals: seq<nat>): (r: Option<Win>)
    requires Sized(w)
    ensures Sized(r)
  {
    if totals == [] then Tick(w, None) else PushedAll(w, totals)
  }

  ghost predicate AllSized(m: map<Key, Win>) { forall k :: k in m ==> |m[k].recent| == BUCKETS }

  /** The window of k moved by one tick with its own readings. */
  ghost predicate Moved(shares: map<Key, Win>, before: map<Key, Win>, readings: seq<(Key, nat)>, k: Key) {
    Sized(At(before, k)) && At(shares, k) == TickAll(At(before, k), ReadingsOf(readings, k))
  }

  /** The window of k moved by the pushes so far. */
  ghost predicate PushedTo(shares: map<Key, Win>, before: map<Key, Win>, readings: seq<(Key, nat)>, k: Key) {
    Sized(At(before, k)) && At(shares, k) == PushedAll(At(before, k), ReadingsOf(readings, k))
  }

  lemma PushOne(shares: map<Key, Win>, before: map<Key, Win>, readings: seq<(Key, nat)>, i: nat, k: Key)
    requires i < |readings| && AllSized(shares) && PushedTo(shares, before, readings[..i], k)
    ensures var (key, total) := readings[i];
            PushedTo(shares[key := Tick(At(shares, key), Some(total)).value], before, readings[..i + 1], k)
  {
    var (key, total) := readings[i];
    assert Sized(At(shares, key));
    assert readings[..i + 1][..i] == readings[..i];
    var ts := ReadingsOf(readings[..i], k);
    if key == k {
      assert (ts + [total])[..|ts|] == ts;
    } else {
      assert ts + [] == ts;
    }
  }

  ghost predicate AllPushed(shares: map<Key, Win>, before: map<Key, Win>, readings: seq<(Key, nat)>) {
    forall k {:trigger PushedTo(shares, before, readings, k)} :: PushedTo(shares, before, readings, k)
  }

  lemma PushStep(shares: map<Key, Win>, before: map<Key, Win>, readings: seq<(Key, nat)>, i: nat)
    requires i < |readings| && AllSized(shares) && AllPushed(shares, before, readings[..i])
    ensures var (key, total) := readings[i];
            AllPushed(shares[key := Tick(At(shares, key), Some(total)).value], before, readings[..i + 1])
  {
    var (key, total) := readings[i];
    var now, more := shares[key := Tick(At(shares, key), Some(total)).value], readings[..i + 1];
    forall k {:trigger PushedTo(now, before, more, k)} ensures PushedTo(now, before, more, k) {
      assert PushedTo(shares, before, readings[..i], k);
      PushOne(shares, before, readings, i, k);
    }
  }

  /** The keys that had a reading. */
  ghost predicate SeenIn(seen: set<Key>, readings: seq<(Key, nat)>) {
    forall k :: k in seen <==> ReadingsOf(readings, k) != []
  }

  lemma SeenMore(seen: set<Key>, readings: seq<(Key, nat)>, i: nat)
    requires i < |readings| && SeenIn(seen, readings[..i])
    ensures SeenIn(seen + {readings[i].0}, readings[..i + 1])
  {
    assert readings[..i + 1][..i] == readings[..i];
  }

  /** The unseen backends in `keys` have yet to idle, all others have moved. */
  ghost predicate Idling(shares: map<Key, Win>, before: map<Key, Win>, readings: seq<(Key, nat)>, keys: set<Key>) {
    && (forall k :: k in keys ==> At(shares, k) == At(before, k) && ReadingsOf(readings, k) == [])
    && (forall k {:trigger Moved(shares, before, readings, k)} :: k !in keys ==> Moved(shares, before, readings, k))
  }

  lemma StartIdling(shares: map<Key, Win>, before: map<Key, Win>, readings: seq<(Key, nat)>, seen: set<Key>)
    requires SeenIn(seen, readings) && AllPushed(shares, before, readings)
    ensures Idling(shares, before, readings, shares.Keys - seen)
  {
    var keys := shares.Keys - seen;
    forall k ensures k in keys ==> At(shares, k) == At(before, k) && ReadingsOf(readings, k) == [] {
      assert PushedTo(shares, before, readings, k);
    }
    forall k {:trigger Moved(shares, before, readings, k)} | k !in keys ensures Moved(shares, before, readings, k) {
      assert PushedTo(shares, before, readings, k);
    }
  }

  lemma IdleStep(was: map<Key, Win>, shares: map<Key, Win>, before: map<Key, Win>, readings: seq<(Key, nat)>, keys: set<Key>, k: Key)
    requires Idling(was, before, readings, keys) && k in keys && Sized(At(was, k))
    requires At(shares, k) == Tick(At(was, k), None)
    requires forall j :: j != k ==> At(shares, j) == At(was, j)
    ensures Idling(shares, before, readings, keys - {k})
  {
    forall j {:trigger Moved(shares, before, readings, j)} | j !in keys - {k} ensures Moved(shares, before, readings, j) {
      if j != k { assert Moved(was, before, readings, j); }
    }
  }

  class Collector {
    var shares: map<Key, Win>

    ghost predicate Valid()
      reads this
    {
      AllSized(shares)
    }

    constructor ()
      ensures Valid() && shares == map[]
    {
      shares := map[];
    }

    /** One tick over every pool: each backend's window moves by its own readings alone. */
    method SampleShares(readings: seq<(Key, nat)>)
      requires Valid()
      modifies this
      ensures Valid()
      ensures forall k :: Moved(shares, old(shares), readings, k)
    {
      ghost var before := shares;
      var seen := PushAll(readings);
      IdleUnseen(seen, before, readings);
    }

    method PushAll(readings: seq<(Key, nat)>) returns (seen: set<Key>)
      requires Valid()
      modifies this
      ensures Valid()
      ensures SeenIn(seen, readings) && AllPushed(shares, old(shares), readings)
    {
      seen := {};
      ghost var before := shares;
      assert readings[..0] == [];
      for i := 0 to |readings|
        invariant Valid()
        invariant SeenIn(seen, readings[..i]) && AllPushed(shares, before, readings[..i])
      {
        var (key, total) := readings[i];
        PushStep(shares, before, readings, i);
        SeenMore(seen, readings, i);
        seen := seen + {key};
        PushReading(key, total);
      }
      assert readings[..|readings|] == readings;
    }

    method PushReading(key: Key, total: nat)
      requires Valid()
      modifies this
      ensures Valid() && Sized(old(At(shares, key)))
      ensures shares == old(shares)[key := Tick(old(At(shares, key)), Some(total)).value]
    {
      var w := if key in shares then shares[key] else BLANK;
      shares := shares[key := Pushed(w, total)];
    }

    method IdleUnseen(seen: set<Key>, ghost before: map<Key, Win>, ghost readings: seq<(Key, nat)>)
      requires Valid()
      requires SeenIn(seen, readings) && AllPushed(shares, before, readings)
      modifies this
      ensures Valid()
      ensures forall k :: Moved(shares, before, readings, k)
    {
      var keys := shares.Keys - seen;
      StartIdling(shares, before, readings, seen);
      while keys != {}
        invariant Valid() && keys <= shares.Keys && Idling(shares, before, readings, keys)
        decreases |keys|
      {
        var k :| k in keys;
        ghost var was := shares;
        IdleOne(k);
        IdleStep(was, shares, before, readings, keys, k);
        keys := keys - {k};
      }
    }

    method IdleOne(k: Key)
      requires Valid() && k in shares
      modifies this
      ensures Valid() && shares.Keys >= old(shares.Keys) - {k} && Sized(old(At(shares, k)))
      ensures At(shares, k) == Tick(old(At(shares, k)), None)
      ensures forall j :: j != k ==> At(shares, j) == old(At(shares, j))
    {
      var w := Idled(shares[k]);
      if w.missed >= STALE_TICKS && Sum(w.recent) == 0 {
        shares := shares - {k};
      } else {
        shares := shares[k := w];
      }
    }
  }
}

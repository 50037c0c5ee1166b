/** Configuration reloads: the routing table rebuilds every pool and carries over what was
    learned about a backend that keeps its host, its location path and its address.
 */
module Reload {
  import opened Basics
  import opened Health
  import opened Balancer

  datatype Slot = Slot(key: string, state: Runtime)

  /** One pool of the table: a host's own (path None) or one of its locations'. */
  datatype PoolEntry = PoolEntry(host: int, path: Option<string>, slots: seq<Slot>)

  datatype PoolConfig = PoolConfig(host: int, path: Option<string>, keys: seq<string>)

  /** What the last slot with this key learned; a new backend otherwise. */
  function Carried(slots: seq<Slot>, key: string): Runtime {
    if slots == [] then NEW
    else if slots[|slots| - 1].key == key then slots[|slots| - 1].state
    else Carried(slots[..|slots| - 1], key)
  }

  /** The slots of the first pool with this host and path. */
  function PreviousPool(table: seq<PoolEntry>, host: int, path: Option<string>): seq<Slot> {
    if table == [] then []
    else if table[0].host == host && table[0].path == path then table[0].slots
    else PreviousPool(table[1..], host, path)
  }

  function Rebuilt(table: seq<PoolEntry>, config: seq<PoolConfig>): (r: seq<PoolEntry>)
    ensures |r| == |config|
    ensures forall a :: 0 <= a < |r| ==> r[a] == RebuiltPool(table, config[a])
  {
    seq(|config|, a requires 0 <= a < |config| => RebuiltPool(table, config[a]))
  }

  function RebuiltPool(table: seq<PoolEntry>, c: PoolConfig): PoolEntry {
    PoolEntry(c.host, c.path, RebuiltSlots(PreviousPool(table, c.host, c.path), c.keys))
  }

  function RebuiltSlots(prev: seq<Slot>, keys: seq<string>): (r: seq<Slot>)
    ensures |r| == |keys|
    ensures forall i :: 0 <= i < |r| ==> r[i] == Slot(keys[i], Carried(prev, keys[i]))
  {
    seq(|keys|, i requires 0 <= i < |keys| => Slot(keys[i], Carried(prev, keys[i])))
  }

  // ----- the pool constructor does what a rebuild says -----

  ghost function SlotsOf(bs: seq<Backend>): (r: seq<Slot>)
    reads bs
    ensures |r| == |bs|
  {
    if bs == [] then []
    else SlotsOf(bs[..|bs| - 1]) + [Slot(bs[|bs| - 1].upstream.key, bs[|bs| - 1].State())]
  }

  lemma {:induction false} InheritedIsCarried(bs: seq<Backend>, key: string)
    ensures Inherited(bs, key) == Carried(SlotsOf(bs), key)
  {
    if bs != [] {
      var init := bs[..|bs| - 1];
      InheritedIsCarried(init, key);
      assert SlotsOf(bs)[..|bs| - 1] == SlotsOf(init);
    }
  }

  // ----- runs -----

  /** Something is learned about the backend at slot i of pool a, or the table is rebuilt. */
  datatype Event = Learn(a: nat, i: nat, change: Runtime -> Runtime) | Rebuild(config: seq<PoolConfig>)

  function Step(table: seq<PoolEntry>, e: Event): seq<PoolEntry> {
    match e
    case Rebuild(config) => Rebuilt(table, config)
    case Learn(a, i, change) =>
      if a < |table| && i < |table[a].slots| then
        var s := table[a].slots[i];
        table[a := table[a].(slots := table[a].slots[i := s.(state := change(s.state))])]
      else table
  }

  function Run(table: seq<PoolEntry>, events: seq<Event>): seq<PoolEntry>
    decreases |events|
  {
    if events == [] then table else Run(Step(table, events[0]), events[1..])
  }

  /** Who is followed: a host, one of its pools and an address. */
  datatype Who = Who(host: int, path: Option<string>, key: string)

  /** Slot i of pool a is the only one of the table that answers to `who`. */
  ghost predicate Sole(table: seq<PoolEntry>, who: Who, a: nat, i: nat) {
    && a < |table| && table[a].host == who.host && table[a].path == who.path
    && i < |table[a].slots| && table[a].slots[i].key == who.key
    && (forall b :: 0 <= b < |table| && table[b].host == who.host && table[b].path == who.path ==> b == a)
    && (forall j :: 0 <= j < |table[a].slots| && table[a].slots[j].key == who.key ==> j == i)
  }

  ghost predicate Present(table: seq<PoolEntry>, who: Who) {
    exists a: nat, i: nat :: Sole(table, who, a, i)
  }

  /** The followed backend is in the table, alone under its address, all the way through. */
  ghost predicate KeptThroughout(table: seq<PoolEntry>, events: seq<Event>, who: Who)
    decreases |events|
  {
    Present(table, who) && (events != [] ==> KeptThroughout(Step(table, events[0]), events[1..], who))
  }

  /** The same events with the rebuilds left out: only what was learned about `who` itself. */
  ghost function OwnHistory(table: seq<PoolEntry>, events: seq<Event>, who: Who): seq<Runtime -> Runtime>
    decreases |events|
  {
    if events == [] then []
    else
      (if events[0].Learn? && Sole(table, who, events[0].a, events[0].i) then [events[0].change] else [])
      + OwnHistory(Step(table, events[0]), events[1..], who)
  }

  function Replay(r: Runtime, history: seq<Runtime -> Runtime>): Runtime
    decreases |history|
  {
    if history == [] then r else Replay(history[0](r), history[1..])
  }

  lemma {:induction false} PreviousIsSole(table: seq<PoolEntry>, who: Who, a: nat, i: nat)
    requires Sole(table, who, a, i)
    ensures PreviousPool(table, who.host, who.path) == table[a].slots
  {
    if a > 0 {
      assert table[1..][a - 1] == table[a];
      forall b | 0 <= b < |table[1..]| && table[1..][b].host == who.host && table[1..][b].path == who.path
        ensures b == a - 1
      {
        assert table[b + 1] == table[1..][b];
      }
      PreviousIsSole(table[1..], who, a - 1, i);
    }
  }

  lemma {:induction false} CarriedIsSole(slots: seq<Slot>, key: string, i: nat)
    requires i < |slots| && slots[i].key == key
    requires forall j :: 0 <= j < |slots| && slots[j].key == key ==> j == i
    ensures Carried(slots, key) == slots[i].state
  {
    if i < |slots| - 1 {
      CarriedIsSole(slots[..|slots| - 1], key, i);
    }
  }

  /** One event moves the followed backend by its own change only, rebuild or not. */
  lemma StepFollows(table: seq<PoolEntry>, e: Event, who: Who, a: nat, i: nat, a': nat, i': nat)
    requires Sole(table, who, a, i) && Sole(Step(table, e), who, a', i')
    ensures Step(table, e)[a'].slots[i'].state ==
            if e.Learn? && Sole(table, who, e.a, e.i) then e.change(table[a].slots[i].state) else table[a].slots[i].state
  {
    match e
    case Rebuild(config) =>
      PreviousIsSole(table, who, a, i);
      CarriedIsSole(table[a].slots, who.key, i);
    case Learn(b, j, change) =>
      assert Step(table, e)[a'].host == table[a'].host;
  }

  /** A backend the table did not have under that host, location path and address starts from new. */
  lemma NewcomersStartNew(table: seq<PoolEntry>, config: seq<PoolConfig>, a: nat, i: nat)
    requires a < |config| && i < |config[a].keys|
    requires forall b, j :: 0 <= b < |table| && 0 <= j < |table[b].slots| && table[b].host == config[a].host && table[b].path == config[a].path ==>
               table[b].slots[j].key != config[a].keys[i]
    ensures Step(table, Rebuild(config))[a].slots[i] == Slot(config[a].keys[i], NEW)
  {
    NotThere(table, config[a].host, config[a].path, config[a].keys[i]);
  }

  lemma {:induction false} NotThere(table: seq<PoolEntry>, host: int, path: Option<string>, key: string)
    requires forall b, j :: 0 <= b < |table| && 0 <= j < |table[b].slots| && table[b].host == host && table[b].path == path ==>
               table[b].slots[j].key != key
    ensures Carried(PreviousPool(table, host, path), key) == NEW
  {
    if table != [] {
      if table[0].host == host && table[0].path == path {
        NoneCarried(table[0].slots, key);
      } else {
        forall b, j | 0 <= b < |table[1..]| && 0 <= j < |table[1..][b].slots| && table[1..][b].host == host && table[1..][b].path == path
          ensures table[1..][b].slots[j].key != key
        {
          assert table[b + 1] == table[1..][b];
        }
        NotThere(table[1..], host, path, key);
      }
    }
  }

  lemma {:induction false} NoneCarried(slots: seq<Slot>, key: string)
    requires forall j :: 0 <= j < |slots| ==> slots[j].key != key
    ensures Carried(slots, key) == NEW
  {
    if slots != [] { NoneCarried(slots[..|slots| - 1], key); }
  }

  /** Reloads are invisible: however rebuilds interleave with what is learned, the followed
      backend ends exactly where its own history alone would have taken it. */
  lemma {:induction false} ReloadsAreInvisible(table: seq<PoolEntry>, events: seq<Event>, who: Who,
                                               a: nat, i: nat, a': nat, i': nat)
    requires KeptThroughout(table, events, who)
    requires Sole(table, who, a, i) && Sole(Run(table, events), who, a', i')
    ensures Run(table, events)[a'].slots[i'].state
         == Replay(table[a].slots[i].state, OwnHistory(table, events, who))
    decreases |events|
  {
    if events != [] {
      var next := Step(table, events[0]);
      assert Present(next, who);
      var b: nat, j: nat :| Sole(next, who, b, j);
      StepFollows(table, events[0], who, a, i, b, j);
      ReloadsAreInvisible(next, events[1..], who, b, j, a', i');
      ReplayHead(table, events, who, table[a].slots[i].state);
    }
  }

  lemma ReplayHead(table: seq<PoolEntry>, events: seq<Event>, who: Who, r: Runtime)
    requires events != []
    ensures Replay(r, OwnHistory(table, events, who)) ==
            Replay(if events[0].Learn? && Sole(table, who, events[0].a, events[0].i) then events[0].change(r) else r,
                   OwnHistory(Step(table, events[0]), events[1..], who))
  {
    var rest := OwnHistory(Step(table, events[0]), events[1..], who);
    if events[0].Learn? && Sole(table, who, events[0].a, events[0].i) {
      var all := [events[0].change] + rest;
      assert all[1..] == rest;
    } else {
      assert [] + rest == rest;
    }
  }
}

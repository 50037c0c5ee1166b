/** Copying a response into the cache while it streams to the client, over every
    interleaving of responses, lookups, invalidations and changes of settings.
 */
module Capture {
  import opened Basics
  import opened CacheSpec
  import opened CachePolicy
  import HC = HostCache

  /** The capture side of one response. headerSent belongs to the recorder in front of it,
      which lets one status line through. */
  datatype Writer = Writer(headerSent: bool, capturing: bool, status: int, terms: Terms, buf: seq<Byte>)

  const IDLE := Writer(false, false, 0, Terms(0, false, 0), [])

  function NewEntry(w: Writer, resp: Response, now: int): Entry {
    Entry(w.status, w.buf, resp.headerBytes, w.terms.isPublic, now, w.terms.expiresAt)
  }

  function Done(w: Writer): Writer { w.(capturing := false, buf := []) }

  /** WriteHeader: the writer afterwards and what it commits to the cache. */
  function OnHeader(w: Writer, cfg: Config, req: Request, resp: Response, now: int): (Writer, Option<Entry>) {
    if w.headerSent then (w, None)
    else
      match Storable(cfg, req, resp, now)
      case None => (w.(headerSent := true, status := resp.status), None)
      case Some(terms) =>
        var started := Writer(true, true, resp.status, terms, []);
        if terms.length == 0 then (Done(started), Some(NewEntry(started, resp, now))) else (started, None)
  }

  /** Write of b of which the client accepted the first n bytes. */
  function OnBytes(w: Writer, resp: Response, b: seq<Byte>, n: nat, now: int): (Writer, Option<Entry>)
    requires n <= |b|
  {
    if !w.capturing || n == 0 then (w, None)
    else if |w.buf| + n > w.terms.length then (Done(w), None)
    else
      var full := w.(buf := w.buf + b[..n]);
      if |full.buf| == w.terms.length then (Done(full), Some(NewEntry(full, resp, now))) else (full, None)
  }

  class CaptureWriter {
    const cfg: Config
    const req: Request
    const key: Key
    const host: HC.HostCache
    var headerSent: bool
    var capturing: bool
    var status: int
    var terms: Terms
    var buf: seq<Byte>

    ghost function State(): Writer
      reads this
    {
      Writer(headerSent, capturing, status, terms, buf)
    }

    constructor (cfg: Config, req: Request, key: Key, host: HC.HostCache)
      ensures this.cfg == cfg && this.req == req && this.key == key && this.host == host && State() == IDLE
    {
      this.cfg, this.req, this.key, this.host := cfg, req, key, host;
      headerSent, capturing, status, terms, buf := false, false, 0, Terms(0, false, 0), [];
    }

    /** The cache after what a step commits. */
    static ghost function Committed(items: seq<Item>, budget: int, k: Key, e: Option<Entry>): seq<Item> {
      if e.Some? then Stored(items, k, e.value, budget) else items
    }

    method WriteHeader(resp: Response, now: int)
      requires host.Valid()
      modifies this, host, host.repr
      ensures host.Valid() && fresh(host.repr - old(host.repr)) && host.budget == old(host.budget)
      ensures State() == OnHeader(old(State()), cfg, req, resp, now).0
      ensures host.contents == Committed(old(host.contents), host.budget, key, OnHeader(old(State()), cfg, req, resp, now).1)
    {
      if headerSent { return; }
      headerSent, status := true, resp.status;
      match Storable(cfg, req, resp, now)
      case None =>
      case Some(t) =>
        terms, capturing, buf := t, true, [];
        if terms.length == 0 {
          Commit(resp, now);
        }
    }

    method Write(resp: Response, b: seq<Byte>, n: nat, now: int)
      requires host.Valid() && n <= |b|
      modifies this, host, host.repr
      ensures host.Valid() && fresh(host.repr - old(host.repr)) && host.budget == old(host.budget)
      ensures State() == OnBytes(old(State()), resp, b, n, now).0
      ensures host.contents == Committed(old(host.contents), host.budget, key, OnBytes(old(State()), resp, b, n, now).1)
    {
      if !capturing || n == 0 { return; }
      if |buf| + n > terms.length {
        Abandon();
        return;
      }
      buf := buf + b[..n];
      if |buf| == terms.length {
        Commit(resp, now);
      }
    }

    method Commit(resp: Response, now: int)
      requires host.Valid()
      modifies `capturing, `buf, host, host.repr
      ensures host.Valid() && fresh(host.repr - old(host.repr)) && host.budget == old(host.budget)
      ensures State() == Done(old(State()))
      ensures host.contents == Stored(old(host.contents), key, NewEntry(old(State()), resp, now), host.budget)
    {
      var entry := Entry(status, buf, resp.headerBytes, terms.isPublic, now, terms.expiresAt);
      host.Put(key, entry);
      capturing, buf := false, [];
    }

    method Abandon()
      modifies `capturing, `buf
      ensures State() == Done(old(State()))
    {
      capturing, buf := false, [];
    }
  }

  // ----- every interleaving -----

  /** What one response has been through: the header that went out and when, and every byte
      the client accepted. */
  datatype Head = Head(resp: Response, at: int)

  /** A response keeps the settings it was opened with. */
  datatype Stream = Stream(key: Key, req: Request, cfg: Config, head: Option<Head>, sent: seq<Byte>, writer: Writer)

  /** budget is what a store made by the event loads. */
  datatype Event =
    | Open(id: nat, key: Key, req: Request, cfg: Config)
    | Header(id: nat, resp: Response, now: int, budget: int)
    | Bytes(id: nat, resp: Response, b: seq<Byte>, n: nat, now: int, budget: int)
    | Look(k: Key, now: int)
    | Drop(host: string, path: string)

  datatype System = System(cache: seq<Item>, streams: map<nat, Stream>)

  function HeaderOn(s: Stream, resp: Response, now: int): (Stream, Option<Entry>) {
    var (w, e) := OnHeader(s.writer, s.cfg, s.req, resp, now);
    (s.(writer := w, head := if s.writer.headerSent then s.head else Some(Head(resp, now))), e)
  }

  function BytesOn(s: Stream, resp: Response, b: seq<Byte>, n: nat, now: int): (Stream, Option<Entry>)
    requires n <= |b|
  {
    var (w, e) := OnBytes(s.writer, resp, b, n, now);
    (s.(writer := w, sent := s.sent + b[..n]), e)
  }

  function PutAll(c: seq<Item>, k: Key, e: Option<Entry>, budget: int): seq<Item> {
    if e.Some? then Stored(c, k, e.value, budget) else c
  }

  /** A body byte written before any header sends a 200 header first. Events for unopened
      responses, reopened ids and impossible counts change nothing. */
  function Next(s: System, ev: Event): System {
    match ev
    case Open(id, key, req, cfg) =>
      if id in s.streams then s else s.(streams := s.streams[id := Stream(key, req, cfg, None, [], IDLE)])
    case Header(id, resp, now, budget) =>
      if id !in s.streams then s else Sent(s, id, HeaderOn(s.streams[id], resp, now), budget)
    case Bytes(id, resp, b, n, now, budget) =>
      if id !in s.streams || n > |b| then s
      else
        var headed := Sent(s, id, HeaderOn(s.streams[id], resp.(status := 200), now), budget);
        Sent(headed, id, BytesOn(headed.streams[id], resp, b, n, now), budget)
    case Look(k, now) => s.(cache := Looked(s.cache, k, now))
    case Drop(host, path) => s.(cache := Invalidated(s.cache, host, path))
  }

  function Sent(s: System, id: nat, step: (Stream, Option<Entry>), budget: int): (r: System)
    ensures id in r.streams
  {
    System(PutAll(s.cache, step.0.key, step.1, budget), s.streams[id := step.0])
  }

  function Run(events: seq<Event>): System {
    if events == [] then System([], map[])
    else Next(Run(events[..|events| - 1]), events[|events| - 1])
  }

  // ----- the run as operations on the cache -----

  function Commit(k: Key, e: Option<Entry>, budget: int): seq<Op> {
    if e.Some? then [Put(k, e.value, budget)] else []
  }

  /** What the event does to the cache. */
  function OpsOf(s: System, ev: Event): seq<Op> {
    match ev
    case Open(_, _, _, _) => []
    case Header(id, resp, now, budget) =>
      if id !in s.streams then [] else Commit(s.streams[id].key, HeaderOn(s.streams[id], resp, now).1, budget)
    case Bytes(id, resp, b, n, now, budget) =>
      if id !in s.streams || n > |b| then []
      else
        var first := HeaderOn(s.streams[id], resp.(status := 200), now);
        Commit(s.streams[id].key, first.1, budget) + Commit(s.streams[id].key, BytesOn(first.0, resp, b, n, now).1, budget)
    case Look(k, now) => [Lookup(k, now)]
    case Drop(host, path) => [Invalidate(host, path)]
  }

  function Ops(events: seq<Event>): seq<Op> {
    if events == [] then [] else Ops(events[..|events| - 1]) + OpsOf(Run(events[..|events| - 1]), events[|events| - 1])
  }

  lemma AfterMore(ops: seq<Op>, op: Op)
    ensures After(ops + [op]) == CacheSpec.Step(After(ops), op)
  {
    assert (ops + [op])[..|ops|] == ops;
  }

  lemma CommitIsPut(ops: seq<Op>, k: Key, e: Option<Entry>, budget: int)
    ensures After(ops + Commit(k, e, budget)) == PutAll(After(ops), k, e, budget)
  {
    if e.Some? { AfterMore(ops, Put(k, e.value, budget)); } else { assert ops + [] == ops; }
  }

  lemma OpsOfNext(s: System, ops: seq<Op>, ev: Event)
    requires s.cache == After(ops)
    ensures Next(s, ev).cache == After(ops + OpsOf(s, ev))
  {
    match ev
    case Open(_, _, _, _) => assert ops + [] == ops;
    case Header(id, resp, now, budget) =>
      if id in s.streams {
        CommitIsPut(ops, s.streams[id].key, HeaderOn(s.streams[id], resp, now).1, budget);
      } else {
        assert ops + [] == ops;
      }
    case Bytes(id, resp, b, n, now, budget) =>
      if id in s.streams && n <= |b| {
        var k, first := s.streams[id].key, HeaderOn(s.streams[id], resp.(status := 200), now);
        var second := BytesOn(first.0, resp, b, n, now).1;
        CommitIsPut(ops, k, first.1, budget);
        CommitIsPut(ops + Commit(k, first.1, budget), k, second, budget);
        assert ops + (Commit(k, first.1, budget) + Commit(k, second, budget)) == ops + Commit(k, first.1, budget) + Commit(k, second, budget);
      } else {
        assert ops + [] == ops;
      }
    case Look(k, now) => AfterMore(ops, Lookup(k, now));
    case Drop(host, path) => AfterMore(ops, Invalidate(host, path));
  }

  /** The cache of the run is what those operations leave. */
  lemma {:induction false} RunIsOps(events: seq<Event>)
    ensures Run(events).cache == After(Ops(events))
  {
    if events != [] {
      RunIsOps(events[..|events| - 1]);
      OpsOfNext(Run(events[..|events| - 1]), Ops(events[..|events| - 1]), events[|events| - 1]);
    }
  }

  // ----- one response -----

  /** The terms a response earned with the header that went out. */
  function Earned(s: Stream): Option<Terms> {
    if s.head.None? then None else Storable(s.cfg, s.req, s.head.value.resp, s.head.value.at)
  }

  /** A response is being captured exactly while its header made it storable and the client has
      accepted less than was declared; the buffer is then everything accepted so far. */
  ghost predicate Consistent(s: Stream) {
    && (s.writer.headerSent <==> s.head.Some?)
    && (s.head.None? ==> s.sent == [])
    && (s.writer.capturing <==> Earned(s).Some? && |s.sent| < Earned(s).value.length)
    && (s.writer.capturing ==>
          s.writer.status == s.head.value.resp.status && Some(s.writer.terms) == Earned(s) && s.writer.buf == s.sent)
  }

  /** Entry e carries what the response earned, and as many bytes as its header declared. */
  ghost predicate CameFrom(e: Entry, s: Stream) {
    && Earned(s).Some? && e.status == s.head.value.resp.status
    && |e.body| == Earned(s).value.length
    && e.expiresAt == Earned(s).value.expiresAt && e.isPublic == Earned(s).value.isPublic
  }

  /** A header commits exactly when it is the first and declares an empty storable body. */
  lemma HeaderStep(s: Stream, resp: Response, now: int)
    requires Consistent(s)
    ensures var (t, e) := HeaderOn(s, resp, now);
            && Consistent(t) && t.writer.headerSent && Grows(s, t) && t.sent == s.sent
            && (e.Some? <==> s.head.None? && Earned(t).Some? && Earned(t).value.length == 0)
            && (e.Some? ==> CameFrom(e.value, t) && e.value.body == t.sent)
  {}

  /** A write commits exactly when it takes what the client accepted from below the declared
      length of a storable response to that very length, and then the body is all of it. */
  lemma BytesStep(s: Stream, resp: Response, b: seq<Byte>, n: nat, now: int)
    requires Consistent(s) && s.writer.headerSent && n <= |b|
    ensures var (t, e) := BytesOn(s, resp, b, n, now);
            && Consistent(t) && Grows(s, t) && t.head == s.head
            && (e.Some? <==> Earned(s).Some? && |s.sent| < Earned(s).value.length == |t.sent|)
            && (e.Some? ==> CameFrom(e.value, t) && e.value.body == t.sent)
  {
    if n == 0 { assert s.sent + b[..n] == s.sent; }
  }

  /** t is s further on: nothing sent is unsent, no header is replaced. */
  ghost predicate Grows(s: Stream, t: Stream) {
    && t.key == s.key && t.req == s.req && t.cfg == s.cfg && s.sent <= t.sent
    && (s.head.Some? ==> t.head == s.head)
  }

  ghost predicate AllConsistent(s: System) {
    forall id :: id in s.streams ==> Consistent(s.streams[id])
  }

  ghost predicate AllGrow(s: System, t: System) {
    forall id :: id in s.streams ==> id in t.streams && Grows(s.streams[id], t.streams[id])
  }

  lemma SentConsistent(s: System, id: nat, step: (Stream, Option<Entry>), budget: int)
    requires AllConsistent(s) && id in s.streams && Grows(s.streams[id], step.0) && Consistent(step.0)
    ensures AllConsistent(Sent(s, id, step, budget)) && AllGrow(s, Sent(s, id, step, budget))
  {}

  lemma NextConsistent(s: System, ev: Event)
    requires AllConsistent(s)
    ensures AllConsistent(Next(s, ev)) && AllGrow(s, Next(s, ev))
  {
    match ev
    case Header(id, resp, now, budget) =>
      if id in s.streams {
        HeaderStep(s.streams[id], resp, now);
        SentConsistent(s, id, HeaderOn(s.streams[id], resp, now), budget);
      }
    case Bytes(id, resp, b, n, now, budget) =>
      if id in s.streams && n <= |b| { BytesConsistent(s, id, resp, b, n, now, budget); }
    case _ =>
  }

  lemma BytesConsistent(s: System, id: nat, resp: Response, b: seq<Byte>, n: nat, now: int, budget: int)
    requires AllConsistent(s) && id in s.streams && n <= |b|
    ensures var t := Next(s, Bytes(id, resp, b, n, now, budget)); AllConsistent(t) && AllGrow(s, t)
  {
    var first := HeaderOn(s.streams[id], resp.(status := 200), now);
    HeaderStep(s.streams[id], resp.(status := 200), now);
    BytesStep(first.0, resp, b, n, now);
    SentConsistent(s, id, first, budget);
    SentConsistent(Sent(s, id, first, budget), id, BytesOn(first.0, resp, b, n, now), budget);
  }

  lemma PutAllMembers(c: seq<Item>, k: Key, e: Option<Entry>, budget: int, x: Item)
    requires x in PutAll(c, k, e, budget) && x !in c
    ensures e.Some? && x == Item(k, e.value)
  {
    if e.Some? { StoredMembers(c, k, e.value, budget, x); }
  }

  /** An item that a step brings in is the whole of what its client had accepted of one
      response: after the step, or before it when its header declared no body. */
  lemma NewItem(s: System, ev: Event, x: Item) returns (id: nat)
    requires AllConsistent(s) && x in Next(s, ev).cache && x !in s.cache
    ensures id in s.streams && id in Next(s, ev).streams
    ensures var t := Next(s, ev).streams[id];
            t.key == x.key && CameFrom(x.entry, t) && (x.entry.body == t.sent || x.entry.body == s.streams[id].sent)
  {
    match ev
    case Look(k, now) => LookedMembers(s.cache, k, now, x);
    case Drop(host, path) => InvalidatedMembers(s.cache, host, path, x);
    case Header(i, resp, now, budget) =>
      id := i;
      HeaderStep(s.streams[i], resp, now);
      PutAllMembers(s.cache, s.streams[i].key, HeaderOn(s.streams[i], resp, now).1, budget, x);
    case Bytes(i, resp, b, n, now, budget) =>
      id := i;
      var first := HeaderOn(s.streams[i], resp.(status := 200), now);
      HeaderStep(s.streams[i], resp.(status := 200), now);
      BytesStep(first.0, resp, b, n, now);
      var headed := Sent(s, i, first, budget);
      if x in headed.cache {
        PutAllMembers(s.cache, s.streams[i].key, first.1, budget, x);
      } else {
        PutAllMembers(headed.cache, first.0.key, BytesOn(first.0, resp, b, n, now).1, budget, x);
      }
  }

  // ----- what is cached, over whole runs -----

  /** Everything the client of response id had accepted after the first j events. */
  ghost function SentBy(events: seq<Event>, j: nat, id: nat): Option<seq<Byte>>
    requires j <= |events|
  {
    var streams := Run(events[..j]).streams;
    if id in streams then Some(streams[id].sent) else None
  }

  /** The item is the complete body of response id: what its client had accepted, all of it and in
      order, at moment j, as many bytes as its header declared, on the terms its header earned. */
  ghost predicate Whole(events: seq<Event>, x: Item, id: nat, j: nat) {
    && j <= |events| && SentBy(events, j, id) == Some(x.entry.body)
    && var streams := Run(events).streams;
    && id in streams && streams[id].key == x.key && CameFrom(x.entry, streams[id])
  }

  lemma WholeStays(events: seq<Event>, x: Item, id: nat, j: nat)
    requires events != [] && Whole(events[..|events| - 1], x, id, j)
    requires AllConsistent(Run(events[..|events| - 1]))
    ensures Whole(events, x, id, j)
  {
    var init := events[..|events| - 1];
    assert init[..j] == events[..j];
    NextConsistent(Run(init), events[|events| - 1]);
  }

  lemma {:induction false} RunConsistent(events: seq<Event>)
    ensures AllConsistent(Run(events))
  {
    if events != [] {
      RunConsistent(events[..|events| - 1]);
      NextConsistent(Run(events[..|events| - 1]), events[|events| - 1]);
    }
  }

  /** After every interleaving, all that is cached came complete from some response. */
  lemma {:induction false} RunGood(events: seq<Event>, x: Item) returns (id: nat, j: nat)
    requires x in Run(events).cache
    ensures Whole(events, x, id, j)
  {
    var n := |events| - 1;
    var init := events[..n];
    var s := Run(init);
    RunConsistent(init);
    if x in s.cache {
      id, j := RunGood(init, x);
      WholeStays(events, x, id, j);
    } else {
      id := NewItem(s, events[n], x);
      j := if x.entry.body == s.streams[id].sent then n else n + 1;
      assert events[..n + 1] == events;
    }
  }

  /** Whatever a request is served from the cache is a complete 200 body that the client of some
      response for the same key accepted, still inside the lifetime that response's header
      earned and inside MaxTTL of it. It was nobody's secret: either that response's request
      carried no credentials or its origin marked it public, and a request with credentials only
      sees the latter. And it is the latest body stored under its key, with no later invalidation of
      its path. */
  lemma ServedHitsAreSound(events: seq<Event>, k: Key, now: int, req: Request)
    returns (id: nat, j: nat, i: nat)
    requires var hit := Hit(Run(events).cache, k, now);
             hit.Some? && Servable(hit.value, req)
    ensures var e := Hit(Run(events).cache, k, now).value;
            Whole(events, Item(k, e), id, j) && LastStore(Ops(events), i, k, e)
    ensures var e := Hit(Run(events).cache, k, now).value;
            var s := Run(events).streams[id];
            var resp := s.head.value.resp;
            && e.status == 200 && resp.length == Some(|e.body|)
            && now < e.expiresAt <= s.head.value.at + s.cfg.maxTTL
            && (resp.cc.isPublic || !(req.authorization || req.cookie || s.req.authorization || s.req.cookie))
            && !resp.cc.isPrivate && !resp.cc.noStore && !resp.cc.noCache && !resp.setCookie
            && s.req.isGet && !resp.varyOther && (resp.cc.present || !resp.pragmaNoCache) && |e.body| <= s.cfg.maxObjectBytes
            && !req.noStore && !req.noCache
  {
    var s := Run(events);
    var e := Hit(s.cache, k, now).value;
    id, j := RunGood(events, Item(k, e));
    RunIsOps(events);
    i := HitIsLastStore(Ops(events), k, now);
    var h := s.streams[id].head.value;
    ServableExactly(e, req);
    StorableOnly(s.streams[id].cfg, s.streams[id].req, h.resp, h.at);
    ExpiryIsEarliestLimit(s.streams[id].cfg, s.streams[id].req, h.resp, h.at);
  }

  // ----- what must be stored -----

  /** The operation stores what the response earned, with all its client has accepted. */
  ghost predicate Stores(op: Op, s: Stream) {
    && op.Put? && op.k == s.key && CameFrom(op.e, s) && op.e.body == s.sent
  }

  /** The response's header made it storable and its client has accepted as much as was declared. */
  ghost predicate Complete(s: Stream) { Earned(s).Some? && |s.sent| == Earned(s).value.length }

  lemma HeaderStores(s: Stream, resp: Response, now: int, budget: int)
    requires Consistent(s) && s.head.None?
    ensures var (t, e) := HeaderOn(s, resp, now);
            Complete(t) ==> |Commit(s.key, e, budget)| == 1 && Stores(Commit(s.key, e, budget)[0], t)
  {
    HeaderStep(s, resp, now);
  }

  lemma BytesStores(s: Stream, resp: Response, b: seq<Byte>, n: nat, now: int, budget: int)
    requires Consistent(s) && s.writer.headerSent && n <= |b|
    ensures var (t, e) := BytesOn(s, resp, b, n, now);
            Complete(t) && t.sent != s.sent ==> |Commit(s.key, e, budget)| == 1 && Stores(Commit(s.key, e, budget)[0], t)
  {
    BytesStep(s, resp, b, n, now);
    if n == 0 { assert s.sent + b[..n] == s.sent; }
  }

  /** A response that an event completes is stored by it. */
  lemma CompletedIsStored(s: System, ev: Event, id: nat) returns (i: nat)
    requires AllConsistent(s) && id in Next(s, ev).streams && Complete(Next(s, ev).streams[id])
    requires id in s.streams ==> !(s.streams[id].head.Some? && s.streams[id].sent == Next(s, ev).streams[id].sent)
    ensures i < |OpsOf(s, ev)| && Stores(OpsOf(s, ev)[i], Next(s, ev).streams[id])
  {
    match ev
    case Header(h, resp, now, budget) =>
      HeaderStep(s.streams[h], resp, now);
      HeaderStores(s.streams[h], resp, now, budget);
      i := 0;
    case Bytes(h, resp, b, n, now, budget) =>
      i := BytesComplete(s.streams[h], resp, b, n, now, budget);
  }

  lemma BytesComplete(s: Stream, resp: Response, b: seq<Byte>, n: nat, now: int, budget: int) returns (i: nat)
    requires Consistent(s) && n <= |b|
    requires var first := HeaderOn(s, resp.(status := 200), now);
             var t := BytesOn(first.0, resp, b, n, now).0;
             Complete(t) && !(s.head.Some? && s.sent == t.sent)
    ensures var first := HeaderOn(s, resp.(status := 200), now);
            var second := BytesOn(first.0, resp, b, n, now);
            var ops := Commit(s.key, first.1, budget) + Commit(s.key, second.1, budget);
            i < |ops| && Stores(ops[i], second.0)
  {
    var first := HeaderOn(s, resp.(status := 200), now);
    var second := BytesOn(first.0, resp, b, n, now);
    HeaderStep(s, resp.(status := 200), now);
    BytesStep(first.0, resp, b, n, now);
    if second.0.sent != first.0.sent {
      BytesStores(first.0, resp, b, n, now, budget);
      i := |Commit(s.key, first.1, budget)|;
    } else {
      HeaderStores(s, resp.(status := 200), now, budget);
      i := 0;
    }
  }

  lemma {:induction false} CompleteWasStored(events: seq<Event>, id: nat) returns (i: nat)
    requires id in Run(events).streams && Complete(Run(events).streams[id])
    ensures i < |Ops(events)| && Stores(Ops(events)[i], Run(events).streams[id])
  {
    var n := |events| - 1;
    var init, ev := events[..n], events[n];
    RunConsistent(init);
    var s, t := Run(init), Run(events);
    if id in s.streams && s.streams[id].head.Some? && s.streams[id].sent == t.streams[id].sent {
      NextConsistent(s, ev);
      assert Grows(s.streams[id], t.streams[id]);
      i := CompleteWasStored(init, id);
    } else {
      var k := CompletedIsStored(s, ev, id);
      i := |Ops(init)| + k;
    }
  }

  /** Every shareable response is stored when it is whole: if the first header of a GET without
      credentials, or marked public, answers 200, declares so many bytes as fit, sets no cookie, varies
      by nothing but the coding, forbids nothing and leaves it a lifetime, then once its client has
      accepted exactly so many bytes they have been put in the cache under its key, until the earlier
      of its own limit and MaxTTL. */
  lemma WholeIsStored(events: seq<Event>, id: nat) returns (i: nat)
    requires id in Run(events).streams && Run(events).streams[id].head.Some?
    requires var s := Run(events).streams[id];
             var resp, at := s.head.value.resp, s.head.value.at;
             && s.req.isGet && resp.status == 200 && resp.length == Some(|s.sent|) && |s.sent| <= s.cfg.maxObjectBytes
             && !resp.setCookie && !resp.varyOther && !resp.cc.noStore && !resp.cc.noCache && !resp.cc.isPrivate
             && (resp.cc.present || !resp.pragmaNoCache) && (s.req.authorization || s.req.cookie ==> resp.cc.isPublic)
             && match OriginLimit(resp, at) case Some(t) => t > at case None => s.cfg.ttl > 0
    ensures var s := Run(events).streams[id];
            var resp, at := s.head.value.resp, s.head.value.at;
            var limit := if OriginLimit(resp, at).Some? then OriginLimit(resp, at).value else at + s.cfg.ttl;
            && i < |Ops(events)| && Ops(events)[i].Put? && Ops(events)[i].k == s.key
            && var e := Ops(events)[i].e;
            && e.status == 200 && e.body == s.sent && e.isPublic == resp.cc.isPublic
            && e.expiresAt == if limit <= at + s.cfg.maxTTL then limit else at + s.cfg.maxTTL
  {
    var s := Run(events).streams[id];
    StorableWhen(s.cfg, s.req, s.head.value.resp, s.head.value.at);
    i := CompleteWasStored(events, id);
  }

  // ----- responses that must leave no trace -----

  /** A response that was nobody else's business. */
  predicate Confidential(req: Request, resp: Response) {
    || ((req.authorization || req.cookie) && !resp.cc.isPublic)
    || resp.cc.isPrivate || resp.cc.noStore || resp.setCookie
  }

  predicate About(ev: Event, id: nat) {
    (ev.Open? || ev.Header? || ev.Bytes?) && ev.id == id
  }

  function Without(events: seq<Event>, id: nat): seq<Event> {
    if events == [] then []
    else
      var init, ev := events[..|events| - 1], events[|events| - 1];
      Without(init, id) + if About(ev, id) then [] else [ev]
  }

  /** Response id answers req and, whatever header it sends, is confidential. */
  ghost predicate AllConfidential(events: seq<Event>, id: nat, req: Request) {
    forall i :: 0 <= i < |events| && About(events[i], id) ==>
      if events[i].Open? then events[i].req == req else Confidential(req, events[i].resp)
  }

  function StreamAt(streams: map<nat, Stream>, id: nat): Option<Stream> {
    if id in streams then Some(streams[id]) else None
  }

  /** The same cache and the same responses, but for id, which is not being captured. */
  ghost predicate SameButFor(s: System, u: System, id: nat, req: Request) {
    && s.cache == u.cache && (forall i :: i != id ==> StreamAt(s.streams, i) == StreamAt(u.streams, i))
    && (id in s.streams ==> s.streams[id].req == req && !s.streams[id].writer.capturing)
  }

  lemma OwnEvent(s: System, u: System, ev: Event, id: nat, req: Request)
    requires SameButFor(s, u, id, req) && About(ev, id)
    requires if ev.Open? then ev.req == req else Confidential(req, ev.resp)
    ensures SameButFor(Next(s, ev), u, id, req)
  {}

  lemma OthersEvent(s: System, u: System, ev: Event, id: nat, req: Request)
    requires SameButFor(s, u, id, req) && !About(ev, id)
    ensures SameButFor(Next(s, ev), Next(u, ev), id, req)
  {
    match ev
    case Open(i, key, r, cfg) =>
      assert StreamAt(s.streams, i) == StreamAt(u.streams, i);
      SentAlike(s, u, i, (Stream(key, r, cfg, None, [], IDLE), None), 0, id, req);
    case Header(i, resp, now, budget) =>
      assert StreamAt(s.streams, i) == StreamAt(u.streams, i);
      if i in s.streams { SentAlike(s, u, i, HeaderOn(s.streams[i], resp, now), budget, id, req); }
    case Bytes(i, resp, b, n, now, budget) =>
      assert StreamAt(s.streams, i) == StreamAt(u.streams, i);
      if i in s.streams && n <= |b| {
        var first := HeaderOn(s.streams[i], resp.(status := 200), now);
        SentAlike(s, u, i, first, budget, id, req);
        SentAlike(Sent(s, i, first, budget), Sent(u, i, first, budget), i, BytesOn(first.0, resp, b, n, now), budget, id, req);
      }
    case _ =>
  }

  lemma SentAlike(s: System, u: System, i: nat, step: (Stream, Option<Entry>), budget: int, id: nat, req: Request)
    requires SameButFor(s, u, id, req) && i != id
    ensures SameButFor(Sent(s, i, step, budget), Sent(u, i, step, budget), id, req)
  {
    var t, v := Sent(s, i, step, budget), Sent(u, i, step, budget);
    forall k | k != id ensures StreamAt(t.streams, k) == StreamAt(v.streams, k) {
      assert StreamAt(s.streams, k) == StreamAt(u.streams, k);
    }
  }

  /** A confidential response leaves no trace: whatever else goes on, the cache after a run is the
      cache after the same run without that response. */
  lemma {:induction false} ConfidentialLeavesNoTrace(events: seq<Event>, id: nat, req: Request)
    requires AllConfidential(events, id, req)
    ensures Run(events).cache == Run(Without(events, id)).cache
    ensures SameButFor(Run(events), Run(Without(events, id)), id, req)
  {
    if events != [] {
      var init, ev := events[..|events| - 1], events[|events| - 1];
      var w := Without(init, id);
      ConfidentialLeavesNoTrace(init, id, req);
      var s, u := Run(init), Run(w);
      if About(ev, id) {
        OwnEvent(s, u, ev, id, req);
        assert w + [] == w;
      } else {
        OthersEvent(s, u, ev, id, req);
        assert (w + [ev])[..|w|] == w;
      }
    }
  }
}

/** One host's bounded cache: a map into an intrusive doubly linked recency list, and a
    running byte count, updated in place.
 */
module HostCache {
  import opened Basics
  import opened CacheSpec

  class Node {
    var prev: Node?
    var next: Node?
    const key: Key
    const entry: Entry

    constructor (k: Key, e: Entry)
      ensures key == k && entry == e && prev == null && next == null
    {
      key, entry := k, e;
      prev, next := null, null;
    }
  }

  /** Following next from head, or prev from tail, reads `nodes` forwards or backwards. */
  ghost predicate Linked(head: Node?, tail: Node?, nodes: seq<Node>)
    reads nodes
  {
    && NoRepeats(nodes)
    && head == First(nodes) && tail == Last(nodes)
    && Links(nodes, Nexts(nodes), Prevs(nodes))
  }

  ghost function At(nodes: seq<Node>, i: int): Node? {
    if 0 <= i < |nodes| then nodes[i] else null
  }

  ghost function First(nodes: seq<Node>): Node? { if nodes == [] then null else nodes[0] }

  ghost function Last(nodes: seq<Node>): Node? { if nodes == [] then null else nodes[|nodes| - 1] }

  ghost function Cut(nodes: seq<Node>, i: nat): seq<Node>
    requires i < |nodes|
  {
    nodes[..i] + nodes[i + 1..]
  }

  ghost predicate NoRepeats(nodes: seq<Node>) {
    forall i, j :: 0 <= i < j < |nodes| ==> Differ(nodes, i, j)
  }

  ghost predicate Differ(nodes: seq<Node>, i: nat, j: nat)
    requires i < |nodes| && j < |nodes|
  {
    nodes[i] != nodes[j]
  }

  lemma OthersDiffer(nodes: seq<Node>, k: nat)
    requires NoRepeats(nodes) && k < |nodes|
    ensures forall j :: 0 <= j < |nodes| && j != k ==> nodes[j] != nodes[k]
  {
    forall j | 0 <= j < |nodes| && j != k ensures nodes[j] != nodes[k] {
      assert if j < k then Differ(nodes, j, k) else Differ(nodes, k, j);
    }
  }

  /** The links of `nodes`, as values. */
  ghost predicate Links(nodes: seq<Node>, nx: seq<Node?>, pv: seq<Node?>)
    reads nodes
  {
    && |nx| == |pv| == |nodes|
    && (forall j {:trigger nodes[j].next} :: 0 <= j < |nodes| ==> nodes[j].next == nx[j])
    && (forall j {:trigger nodes[j].prev} :: 0 <= j < |nodes| ==> nodes[j].prev == pv[j])
  }

  method SetNext(m: Node, x: Node?, ghost nodes: seq<Node>, ghost nx: seq<Node?>, ghost pv: seq<Node?>, ghost k: nat)
    requires NoRepeats(nodes) && Links(nodes, nx, pv) && k < |nodes| && m == nodes[k]
    modifies m`next
    ensures Links(nodes, nx[k := x], pv)
  {
    OthersDiffer(nodes, k);
    m.next := x;
  }

  method SetPrev(m: Node, x: Node?, ghost nodes: seq<Node>, ghost nx: seq<Node?>, ghost pv: seq<Node?>, ghost k: nat)
    requires NoRepeats(nodes) && Links(nodes, nx, pv) && k < |nodes| && m == nodes[k]
    modifies m`prev
    ensures Links(nodes, nx, pv[k := x])
  {
    OthersDiffer(nodes, k);
    m.prev := x;
  }

  ghost function Nexts(nodes: seq<Node>): (r: seq<Node?>)
    ensures |r| == |nodes| && forall j {:trigger r[j]} :: 0 <= j < |r| ==> r[j] == At(nodes, j + 1)
  {
    seq(|nodes|, j => At(nodes, j + 1))
  }

  ghost function Prevs(nodes: seq<Node>): (r: seq<Node?>)
    ensures |r| == |nodes| && forall j {:trigger r[j]} :: 0 <= j < |r| ==> r[j] == At(nodes, j - 1)
  {
    seq(|nodes|, j => At(nodes, j - 1))
  }

  lemma CutNoRepeats(was: seq<Node>, i: nat)
    requires i < |was| && NoRepeats(was)
    ensures NoRepeats(Cut(was, i))
  {
    forall a, b | 0 <= a < b < |Cut(was, i)| ensures Differ(Cut(was, i), a, b) {
      assert Differ(was, if a < i then a else a + 1, if b < i then b else b + 1);
    }
  }

  lemma PushNoRepeats(rest: seq<Node>, n: Node)
    requires NoRepeats(rest) && n !in rest
    ensures NoRepeats([n] + rest)
  {
    var all := [n] + rest;
    forall a, b | 0 <= a < b < |all| ensures Differ(all, a, b) {
      if a > 0 { assert Differ(rest, a - 1, b - 1); } else { assert all[b] == rest[b - 1]; }
    }
  }

  lemma CutAt(was: seq<Node>, i: nat, j: int)
    requires i < |was|
    ensures At(Cut(was, i), j) == if j < i then At(was, j) else At(was, j + 1)
  {}

  lemma CutEnds(was: seq<Node>, i: nat)
    requires i < |was|
    ensures First(Cut(was, i)) == if i > 0 then was[0] else if |was| == 1 then null else was[1]
    ensures Last(Cut(was, i)) == if i < |was| - 1 then was[|was| - 1] else if i == 0 then null else was[i - 1]
  {}

  ghost function SkipNexts(was: seq<Node>, i: nat): (r: seq<Node?>)
    requires i < |was|
    ensures |r| == |was|
  {
    if i == 0 then Nexts(was) else Nexts(was)[i - 1 := At(was, i + 1)]
  }

  ghost function SkipPrevs(was: seq<Node>, i: nat): (r: seq<Node?>)
    requires i < |was|
    ensures |r| == |was|
  {
    if i == |was| - 1 then Prevs(was) else Prevs(was)[i + 1 := At(was, i - 1)]
  }

  /** Links that step over position i are the links of the list without it. */
  lemma CutLinks(was: seq<Node>, i: nat)
    requires i < |was| && Links(was, SkipNexts(was, i)[i := null], SkipPrevs(was, i)[i := null])
    ensures Links(Cut(was, i), Nexts(Cut(was, i)), Prevs(Cut(was, i)))
  {
    var cut := Cut(was, i);
    forall j | 0 <= j < |cut| ensures cut[j].next == At(cut, j + 1) && cut[j].prev == At(cut, j - 1) {
      CutAt(was, i, j - 1);
      CutAt(was, i, j + 1);
    }
  }

  /** The items the nodes hold, in list order. */
  ghost predicate Holds(nodes: seq<Node>, c: seq<Item>) {
    |nodes| == |c| && forall i {:trigger c[i]} :: 0 <= i < |c| ==> c[i] == Item(nodes[i].key, nodes[i].entry)
  }

  /** The map finds exactly the listed nodes, each under its own key. */
  ghost predicate Indexed(items: map<Key, Node>, nodes: seq<Node>) {
    && (forall i {:trigger nodes[i].key} :: 0 <= i < |nodes| ==> nodes[i].key in items && items[nodes[i].key] == nodes[i])
    && (forall k {:trigger items[k]} :: k in items ==> items[k] in nodes && items[k].key == k)
  }

  lemma CutDrops(was: seq<Node>, i: nat)
    requires i < |was| && NoRepeats(was)
    ensures was[i] !in Cut(was, i)
  {
    OthersDiffer(was, i);
  }

  lemma IndexedDistinct(items: map<Key, Node>, nodes: seq<Node>, c: seq<Item>)
    requires Indexed(items, nodes) && NoRepeats(nodes) && Holds(nodes, c)
    ensures DistinctKeys(c)
  {
    forall i, j | 0 <= i < j < |c| ensures c[i].key != c[j].key {
      assert Differ(nodes, i, j);
      assert items[nodes[i].key] == nodes[i] && items[nodes[j].key] == nodes[j];
    }
  }

  /** Taking a node out of the list drops its key from the contents and frees its size. */
  lemma CutContents(items: map<Key, Node>, was: seq<Node>, i: nat, c: seq<Item>)
    requires i < |was| && NoRepeats(was) && Indexed(items, was) && Holds(was, c)
    ensures Holds(Cut(was, i), Keep(c, {was[i].key}))
    ensures Bytes(Keep(c, {was[i].key})) == Bytes(c) - Size(was[i].entry)
  {
    IndexedDistinct(items, was, c);
    assert c[i].key == was[i].key;
    KeepCuts(c, i);
    CutBytes(c, i);
  }

  lemma BytesWithout(a: seq<Item>, x: Item, b: seq<Item>)
    ensures Bytes(a + b) == Bytes(a + ([x] + b)) - Size(x.entry)
  {
    BytesAppend(a, b);
    BytesAppend(a, [x] + b);
    BytesOfPrefixed(x, b);
  }

  lemma SplitAt(c: seq<Item>, i: nat)
    requires i < |c|
    ensures c == c[..i] + ([c[i]] + c[i + 1..])
  {}

  lemma CutBytes(c: seq<Item>, i: nat)
    requires i < |c|
    ensures Bytes(c[..i] + c[i + 1..]) == Bytes(c) - Size(c[i].entry)
  {
    SplitAt(c, i);
    BytesWithout(c[..i], c[i], c[i + 1..]);
  }

  lemma CutIndexed(items: map<Key, Node>, was: seq<Node>, i: nat)
    requires i < |was| && NoRepeats(was) && Indexed(items, was)
    ensures Indexed(items - {was[i].key}, Cut(was, i))
  {
    var cut, rest := Cut(was, i), items - {was[i].key};
    OthersDiffer(was, i);
    forall j | 0 <= j < |cut| ensures cut[j].key in rest && rest[cut[j].key] == cut[j] {
      var o := if j < i then j else j + 1;
      assert cut[j] == was[o] && items[was[o].key] == was[o] && items[was[i].key] == was[i];
    }
    forall k | k in rest ensures rest[k] in cut && rest[k].key == k {
      var o :| 0 <= o < |was| && was[o] == items[k];
      assert o != i;
      assert cut[if o < i then o else o - 1] == was[o];
    }
  }

  /** The map answers what a search of the contents would. */
  lemma FindIndexed(items: map<Key, Node>, nodes: seq<Node>, c: seq<Item>, k: Key)
    requires Indexed(items, nodes) && Holds(nodes, c)
    ensures Find(c, k) == if k in items then Some(items[k].entry) else None
  {
    if k in items {
      var o :| 0 <= o < |nodes| && nodes[o] == items[k];
      assert c[o].key == k;
    }
    if Find(c, k).Some? {
      var j :| 0 <= j < |c| && c[j] == Item(k, Find(c, k).value);
      assert nodes[j].key in items;
    }
  }

  /** Moving a node to the front keeps the map. */
  lemma FrontIndexed(items: map<Key, Node>, was: seq<Node>, i: nat)
    requires i < |was| && NoRepeats(was) && Indexed(items, was)
    ensures Indexed(items, [was[i]] + Cut(was, i))
  {
    CutIndexed(items, was, i);
    var cut, now := Cut(was, i), [was[i]] + Cut(was, i);
    var rest := items - {was[i].key};
    forall k | k in items ensures items[k] in now && items[k].key == k {
      if k == was[i].key { assert now[0] == items[k]; } else { assert rest[k] in cut; }
    }
    forall j | 0 <= j < |now| ensures now[j].key in items && items[now[j].key] == now[j] {
      if j > 0 { assert now[j] == cut[j - 1] && cut[j - 1].key in rest; } else { assert was[i].key in items; }
    }
  }

  lemma FrontContents(items: map<Key, Node>, was: seq<Node>, i: nat, c: seq<Item>)
    requires i < |was| && NoRepeats(was) && Indexed(items, was) && Holds(was, c)
    ensures var n := was[i];
            var now := [Item(n.key, n.entry)] + Keep(c, {n.key});
            Holds([n] + Cut(was, i), now) && Bytes(now) == Bytes(c)
  {
    CutContents(items, was, i, c);
    PushContents(Cut(was, i), was[i], Keep(c, {was[i].key}));
  }

  lemma PushContents(rest: seq<Node>, n: Node, c: seq<Item>)
    requires Holds(rest, c)
    ensures var now := [Item(n.key, n.entry)] + c;
            Holds([n] + rest, now) && Bytes(now) == Size(n.entry) + Bytes(c)
  {
    BytesOfPrefixed(Item(n.key, n.entry), c);
  }

  /** The keys of the map are the keys of the contents. */
  lemma MatchingIndexed(items: map<Key, Node>, nodes: seq<Node>, c: seq<Item>, host: string, path: string)
    requires Indexed(items, nodes) && Holds(nodes, c)
    ensures MatchingKeys(c, host, path) == MatchingOf(items.Keys, host, path)
  {
    var keys := MatchingOf(items.Keys, host, path);
    forall k | k in keys ensures k in MatchingKeys(c, host, path) {
      var o :| 0 <= o < |nodes| && nodes[o] == items[k];
      assert c[o].key == k;
    }
    forall k | k in MatchingKeys(c, host, path) ensures k in keys {
      var i :| 0 <= i < |c| && Matching(c[i].key, host, path) && c[i].key == k;
      assert nodes[i].key in items;
    }
  }

  lemma PushIndexed(items: map<Key, Node>, rest: seq<Node>, n: Node)
    requires Indexed(items, rest) && n.key !in items
    ensures Indexed(items[n.key := n], [n] + rest)
  {
    var now, index := [n] + rest, items[n.key := n];
    forall k | k in index ensures index[k] in now && index[k].key == k {
      if k == n.key { assert now[0] == index[k]; } else { assert items[k] in rest; }
    }
    forall j | 0 <= j < |now| ensures now[j].key in index && index[now[j].key] == now[j] {
      if j > 0 { assert now[j] == rest[j - 1] && rest[j - 1].key in items; }
    }
  }

  ghost function MatchingOf(keys: set<Key>, host: string, path: string): set<Key> {
    set k | k in keys && Matching(k, host, path)
  }

  /** What of the goal has been dropped once k, too, is no longer to be visited. */
  lemma GoalStep(goal: set<Key>, keys: set<Key>, k: Key)
    requires k in keys
    ensures goal - (keys - {k}) == (goal - keys) + if k in goal then {k} else {}
  {}

  class HostCache {
    var budget: int
    var items: map<Key, Node>
    var head: Node?
    var tail: Node?
    var bytes: int
    ghost var nodes: seq<Node>
    ghost var repr: set<Node>
    /** The stored items, most recently used first. */
    ghost var contents: seq<Item>

    ghost predicate Valid()
      reads this, repr
    {
      && Listed()
      && Indexed(items, nodes)
      && Holds(nodes, contents)
      && bytes == Bytes(contents)
    }

    ghost predicate Listed()
      reads this, repr
    {
      && (forall i :: 0 <= i < |nodes| ==> nodes[i] in repr)
      && Linked(head, tail, nodes)
    }

    constructor (budget: int)
      ensures Valid() && contents == [] && this.budget == budget && repr == {}
    {
      this.budget := budget;
      items, head, tail, bytes := map[], null, null, 0;
      nodes, repr, contents := [], {}, [];
    }

    /** Makes what comes before n, or the head, step over it. */
    method BypassForward(n: Node, ghost i: nat)
      requires Linked(head, tail, nodes) && i < |nodes| && nodes[i] == n
      modifies `head, nodes`next
      ensures head == First(Cut(nodes, i))
      ensures Links(nodes, SkipNexts(nodes, i), Prevs(nodes))
    {
      CutEnds(nodes, i);
      assert n.prev == (if i == 0 then null else nodes[i - 1]);
      assert n.next == (if i == |nodes| - 1 then null else nodes[i + 1]);
      if n.prev != null {
        SetNext(n.prev, n.next, nodes, Nexts(nodes), Prevs(nodes), i - 1);
      } else {
        head := n.next;
      }
    }

    /** Makes what comes after n, or the tail, step over it. */
    method BypassBackward(n: Node, ghost i: nat)
      requires i < |nodes| && nodes[i] == n && NoRepeats(nodes) && tail == Last(nodes)
      requires Links(nodes, SkipNexts(nodes, i), Prevs(nodes))
      modifies `tail, nodes`prev
      ensures tail == Last(Cut(nodes, i))
      ensures Links(nodes, SkipNexts(nodes, i), SkipPrevs(nodes, i))
    {
      CutEnds(nodes, i);
      assert n.prev == (if i == 0 then null else nodes[i - 1]);
      assert n.next == (if i == |nodes| - 1 then null else nodes[i + 1]);
      if n.next != null {
        SetPrev(n.next, n.prev, nodes, SkipNexts(nodes, i), Prevs(nodes), i + 1);
      } else {
        tail := n.prev;
      }
    }

    method Unlink(n: Node, ghost i: nat)
      requires Linked(head, tail, nodes) && i < |nodes| && nodes[i] == n
      modifies `head, `tail, `nodes, nodes`prev, nodes`next
      ensures nodes == Cut(old(nodes), i) && Linked(head, tail, nodes)
    {
      ghost var was := nodes;
      BypassForward(n, i);
      BypassBackward(n, i);
      SetNext(n, null, was, SkipNexts(was, i), SkipPrevs(was, i), i);
      SetPrev(n, null, was, SkipNexts(was, i)[i := null], SkipPrevs(was, i), i);
      nodes := Cut(was, i);
      CutNoRepeats(was, i);
      CutLinks(was, i);
    }

    method PushFront(n: Node)
      requires Linked(head, tail, nodes) && n !in nodes
      modifies `head, `tail, `nodes, n`prev, n`next, nodes`prev
      ensures nodes == [n] + old(nodes) && Linked(head, tail, nodes)
    {
      PushNoRepeats(nodes, n);
      if nodes != [] { OthersDiffer(nodes, 0); }
      n.prev := null;
      n.next := head;
      if head != null { head.prev := n; }
      head := n;
      if tail == null { tail := n; }
      nodes := [n] + nodes;
    }

    method MoveToFront(n: Node, ghost i: nat)
      requires Linked(head, tail, nodes) && i < |nodes| && nodes[i] == n
      modifies `head, `tail, `nodes, nodes`prev, nodes`next
      ensures nodes == [n] + Cut(old(nodes), i) && Linked(head, tail, nodes)
    {
      if head == n {
        OthersDiffer(nodes, 0);
        assert i == 0 && nodes == [n] + Cut(nodes, 0);
        return;
      }
      ghost var was := nodes;
      Unlink(n, i);
      CutDrops(was, i);
      PushFront(n);
    }

    method Remove(n: Node, ghost i: nat)
      requires Valid() && i < |nodes| && nodes[i] == n
      modifies `items, `bytes, `head, `tail, `nodes, `contents, nodes`prev, nodes`next
      ensures Valid() && nodes == Cut(old(nodes), i)
      ensures contents == Keep(old(contents), {n.key}) && items == old(items) - {n.key}
    {
      CutContents(items, nodes, i, contents);
      contents := Keep(contents, {n.key});
      bytes := bytes - Size(n.entry);
      Detach(n, i);
    }

    method Detach(n: Node, ghost i: nat)
      requires Listed() && Indexed(items, nodes) && i < |nodes| && nodes[i] == n
      modifies `items, `head, `tail, `nodes, nodes`prev, nodes`next
      ensures nodes == Cut(old(nodes), i) && Listed() && Indexed(items, nodes)
      ensures items == old(items) - {n.key}
    {
      CutIndexed(items, nodes, i);
      items := items - {n.key};
      Unlink(n, i);
    }

    /** Drops a stale entry, moves a fresh one to the front. */
    method Lookup(k: Key, now: int) returns (r: Option<Entry>)
      requires Valid()
      modifies `items, `bytes, `head, `tail, `nodes, `contents, repr`prev, repr`next
      ensures Valid()
      ensures contents == Looked(old(contents), k, now)
      ensures r == Hit(old(contents), k, now)
    {
      FindIndexed(items, nodes, contents, k);
      if k !in items { return None; }
      var n := items[k];
      ghost var i :| 0 <= i < |nodes| && nodes[i] == n;
      if !Fresh(n.entry, now) {
        Remove(n, i);
        return None;
      }
      Touch(n, i);
      return Some(n.entry);
    }

    method Touch(n: Node, ghost i: nat)
      requires Valid() && i < |nodes| && nodes[i] == n
      modifies `head, `tail, `nodes, `contents, nodes`prev, nodes`next
      ensures Valid()
      ensures contents == [Item(n.key, n.entry)] + Keep(old(contents), {n.key})
    {
      FrontContents(items, nodes, i, contents);
      contents := [Item(n.key, n.entry)] + Keep(contents, {n.key});
      Promote(n, i);
    }

    method Promote(n: Node, ghost i: nat)
      requires Listed() && Indexed(items, nodes) && i < |nodes| && nodes[i] == n
      modifies `head, `tail, `nodes, nodes`prev, nodes`next
      ensures nodes == [n] + Cut(old(nodes), i) && Listed() && Indexed(items, nodes)
    {
      FrontIndexed(items, nodes, i);
      MoveToFront(n, i);
    }

    /** Stores an entry at the front and evicts from the back until the budget holds. */
    method Put(k: Key, e: Entry)
      requires Valid()
      modifies `items, `bytes, `head, `tail, `nodes, `contents, `repr, repr`prev, repr`next
      ensures Valid() && fresh(repr - old(repr))
      ensures contents == Stored(old(contents), k, e, budget)
    {
      if Size(e) > budget { return; }
      Replace(k, e);
      ghost var all := contents;
      while bytes > budget && tail != null
        invariant Valid() && fresh(repr - old(repr))
        invariant Fit(contents, budget) == Fit(all, budget)
        decreases |nodes|
      {
        EvictTail();
      }
    }

    method EvictTail()
      requires Valid() && tail != null
      modifies `items, `bytes, `head, `tail, `nodes, `contents, nodes`prev, nodes`next
      ensures Valid() && |nodes| == |old(nodes)| - 1
      ensures contents == old(contents)[..|old(contents)| - 1] && old(contents) != []
    {
      IndexedDistinct(items, nodes, contents);
      KeepCuts(contents, |contents| - 1);
      Remove(tail, |nodes| - 1);
    }

    method Replace(k: Key, e: Entry)
      requires Valid()
      modifies `items, `bytes, `head, `tail, `nodes, `contents, `repr, repr`prev, repr`next
      ensures Valid() && fresh(repr - old(repr))
      ensures contents == [Item(k, e)] + Keep(old(contents), {k})
    {
      FindIndexed(items, nodes, contents, k);
      if k in items {
        RemoveKey(k);
      } else {
        KeepAll(contents, {k});
      }
      var n := new Node(k, e);
      Insert(n);
    }

    method Insert(n: Node)
      requires Valid() && n !in repr && n.key !in items
      modifies `items, `bytes, `head, `tail, `nodes, `contents, `repr, n`prev, n`next, nodes`prev
      ensures Valid() && repr == old(repr) + {n}
      ensures contents == [Item(n.key, n.entry)] + old(contents)
    {
      PushIndexed(items, nodes, n);
      PushContents(nodes, n, contents);
      items := items[n.key := n];
      bytes := bytes + Size(n.entry);
      contents := [Item(n.key, n.entry)] + contents;
      repr := repr + {n};
      PushFront(n);
    }

    /** Drops every variant of a path, visiting the map in any order. */
    method Invalidate(host: string, path: string)
      requires Valid()
      modifies `items, `bytes, `head, `tail, `nodes, `contents, repr`prev, repr`next
      ensures Valid()
      ensures contents == Invalidated(old(contents), host, path)
    {
      ghost var before, goal := contents, MatchingOf(items.Keys, host, path);
      MatchingIndexed(items, nodes, contents, host, path);
      KeepAll(contents, {});
      var keys := items.Keys;
      assert goal - keys == {};
      while keys != {}
        invariant Valid() && keys <= items.Keys && contents == Keep(before, goal - keys)
        invariant forall k :: k in keys ==> (k in goal <==> Matching(k, host, path))
        decreases |keys|
      {
        var k :| k in keys;
        Visit(k, host, path, before, goal, keys);
        keys := keys - {k};
      }
      assert goal - {} == goal;
    }

    method Visit(k: Key, host: string, path: string, ghost before: seq<Item>, ghost goal: set<Key>, ghost keys: set<Key>)
      requires Valid() && k in keys && keys <= items.Keys && contents == Keep(before, goal - keys)
      requires k in goal <==> Matching(k, host, path)
      modifies `items, `bytes, `head, `tail, `nodes, `contents, repr`prev, repr`next
      ensures Valid() && keys - {k} <= items.Keys
      ensures contents == Keep(before, goal - (keys - {k}))
    {
      GoalStep(goal, keys, k);
      if Matching(k, host, path) {
        KeepKeep(before, goal - keys, {k});
        RemoveKey(k);
      } else {
        assert (goal - keys) + {} == goal - keys;
      }
    }

    method RemoveKey(k: Key)
      requires Valid() && k in items
      modifies `items, `bytes, `head, `tail, `nodes, `contents, repr`prev, repr`next
      ensures Valid() && contents == Keep(old(contents), {k}) && items == old(items) - {k}
    {
      var n := items[k];
      ghost var i :| 0 <= i < |nodes| && nodes[i] == n;
      Remove(n, i);
    }
  }
}

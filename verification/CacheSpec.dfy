/** A host's response cache as a value: stored items, most recently used first, and what
    each operation makes of them.
 */
module CacheSpec {
  import opened Basics

  datatype Key = Key(host: string, path: string, query: string, enc: nat)

  /** headerBytes is the accounted cost of the stored header fields. */
  datatype Entry = Entry(status: int, body: seq<Byte>, headerBytes: nat, isPublic: bool, storedAt: int, expiresAt: int)

  const ENTRY_OVERHEAD: nat := 256

  function Size(e: Entry): nat { |e.body| + ENTRY_OVERHEAD + e.headerBytes }

  predicate Fresh(e: Entry, now: int) { now < e.expiresAt }

  datatype Item = Item(key: Key, entry: Entry)

  function Bytes(c: seq<Item>): nat {
    if c == [] then 0 else Bytes(c[..|c| - 1]) + Size(c[|c| - 1].entry)
  }

  ghost predicate DistinctKeys(c: seq<Item>) {
    forall i, j :: 0 <= i < j < |c| ==> c[i].key != c[j].key
  }

  /** The items whose keys are not in `drop`, in the same order. */
  function Keep(c: seq<Item>, drop: set<Key>): seq<Item> {
    if c == [] then []
    else Keep(c[..|c| - 1], drop) + (if c[|c| - 1].key in drop then [] else [c[|c| - 1]])
  }

  function Find(c: seq<Item>, k: Key): (r: Option<Entry>)
    ensures r.Some? ==> Item(k, r.value) in c
    ensures r.None? ==> forall i :: 0 <= i < |c| ==> c[i].key != k
  {
    if c == [] then None
    else if c[|c| - 1].key == k then Some(c[|c| - 1].entry)
    else Find(c[..|c| - 1], k)
  }

  /** The longest prefix that fits the budget. */
  function Fit(c: seq<Item>, budget: int): seq<Item> {
    if c == [] || Bytes(c) <= budget then c else Fit(c[..|c| - 1], budget)
  }

  lemma {:induction false} FitIsLongestPrefix(c: seq<Item>, budget: int)
    ensures Fit(c, budget) <= c
    ensures Fit(c, budget) == [] || Bytes(Fit(c, budget)) <= budget
    ensures forall n :: |Fit(c, budget)| < n <= |c| ==> Bytes(c[..n]) > budget
  {
    if !(c == [] || Bytes(c) <= budget) {
      var init := c[..|c| - 1];
      FitIsLongestPrefix(init, budget);
      forall n | |Fit(c, budget)| < n <= |c| ensures Bytes(c[..n]) > budget {
        if n == |c| { assert c[..n] == c; } else { assert c[..n] == init[..n]; }
      }
    }
  }

  // ----- facts about Keep -----

  lemma {:induction false} KeepMembers(c: seq<Item>, drop: set<Key>)
    ensures forall x :: x in Keep(c, drop) <==> x in c && x.key !in drop
  {
    if c != [] {
      var init := c[..|c| - 1];
      KeepMembers(init, drop);
      assert c == init + [c[|c| - 1]];
    }
  }

  lemma {:induction false} KeepDistinct(c: seq<Item>, drop: set<Key>)
    requires DistinctKeys(c)
    ensures DistinctKeys(Keep(c, drop))
  {
    if c != [] {
      var init := c[..|c| - 1];
      KeepDistinct(init, drop);
      KeepMembers(init, drop);
      var k := Keep(init, drop);
      forall i | 0 <= i < |k| ensures k[i].key != c[|c| - 1].key {
        assert k[i] in k;
      }
    }
  }

  lemma {:induction false} KeepAll(c: seq<Item>, drop: set<Key>)
    requires forall i :: 0 <= i < |c| ==> c[i].key !in drop
    ensures Keep(c, drop) == c
  {
    if c != [] {
      KeepAll(c[..|c| - 1], drop);
      assert c == c[..|c| - 1] + [c[|c| - 1]];
    }
  }

  /** With distinct keys, dropping one key is cutting out one position. */
  lemma {:induction false} KeepCuts(c: seq<Item>, i: nat)
    requires DistinctKeys(c) && i < |c|
    ensures Keep(c, {c[i].key}) == c[..i] + c[i + 1..]
  {
    var n := |c| - 1;
    var init := c[..n];
    if i == n {
      KeepAll(init, {c[i].key});
      assert c[i + 1..] == [];
    } else {
      KeepCuts(init, i);
      assert init[i] == c[i] && init[..i] == c[..i];
      assert c[i + 1..] == init[i + 1..] + [c[n]];
    }
  }

  lemma {:induction false} KeepKeep(c: seq<Item>, a: set<Key>, b: set<Key>)
    ensures Keep(Keep(c, a), b) == Keep(c, a + b)
  {
    if c != [] {
      var init, x := c[..|c| - 1], c[|c| - 1];
      KeepKeep(init, a, b);
      if x.key !in a {
        var k := Keep(init, a);
        assert (k + [x])[..|k|] == k;
      } else {
        assert Keep(c, a) == Keep(init, a);
      }
    }
  }

  // ----- the operations -----

  function Looked(c: seq<Item>, k: Key, now: int): seq<Item> {
    match Find(c, k)
    case None => c
    case Some(e) => if Fresh(e, now) then [Item(k, e)] + Keep(c, {k}) else Keep(c, {k})
  }

  function Hit(c: seq<Item>, k: Key, now: int): Option<Entry> {
    match Find(c, k)
    case None => None
    case Some(e) => if Fresh(e, now) then Some(e) else None
  }

  function Stored(c: seq<Item>, k: Key, e: Entry, budget: int): seq<Item> {
    if Size(e) > budget then c else Fit([Item(k, e)] + Keep(c, {k}), budget)
  }

  predicate Matching(k: Key, host: string, path: string) { k.host == host && k.path == path }

  function MatchingKeys(c: seq<Item>, host: string, path: string): set<Key> {
    set i | 0 <= i < |c| && Matching(c[i].key, host, path) :: c[i].key
  }

  function Invalidated(c: seq<Item>, host: string, path: string): seq<Item> {
    Keep(c, MatchingKeys(c, host, path))
  }

  /** An accepted entry is always the first item left, whatever else had to go. */
  lemma {:induction false} NewestSurvives(c: seq<Item>, budget: int)
    requires c != [] && Size(c[0].entry) <= budget
    ensures Fit(c, budget) != [] && Fit(c, budget)[0] == c[0]
  {
    if |c| == 1 {
      assert c[..|c| - 1] == [] && Bytes(c) == Size(c[0].entry);
    } else if Bytes(c) > budget {
      NewestSurvives(c[..|c| - 1], budget);
    }
  }

  // ----- runs -----

  /** A store carries the budget it loaded before it took the lock. */
  datatype Op =
    | Lookup(k: Key, now: int)
    | Put(k: Key, e: Entry, budget: int)
    | Invalidate(host: string, path: string)

  function Step(c: seq<Item>, op: Op): seq<Item> {
    match op
    case Lookup(k, now) => Looked(c, k, now)
    case Put(k, e, budget) => Stored(c, k, e, budget)
    case Invalidate(host, path) => Invalidated(c, host, path)
  }

  function After(ops: seq<Op>): seq<Item> {
    if ops == [] then [] else Step(After(ops[..|ops| - 1]), ops[|ops| - 1])
  }

  lemma LookedMembers(c: seq<Item>, k: Key, now: int, x: Item)
    requires x in Looked(c, k, now)
    ensures x in c
  {
    KeepMembers(c, {k});
  }

  lemma StoredMembers(c: seq<Item>, k: Key, e: Entry, budget: int, x: Item)
    requires x in Stored(c, k, e, budget)
    ensures Size(e) <= budget ==> x == Item(k, e) || (x in c && x.key != k)
    ensures Size(e) > budget ==> x in c
  {
    KeepMembers(c, {k});
    FitIsLongestPrefix([Item(k, e)] + Keep(c, {k}), budget);
  }

  lemma InvalidatedMembers(c: seq<Item>, host: string, path: string, x: Item)
    requires x in Invalidated(c, host, path)
    ensures x in c && !Matching(x.key, host, path)
  {
    KeepMembers(c, MatchingKeys(c, host, path));
    var i :| 0 <= i < |c| && c[i] == x;
  }

  lemma StepDistinct(c: seq<Item>, op: Op)
    requires DistinctKeys(c)
    ensures DistinctKeys(Step(c, op))
  {
    match op
    case Lookup(k, now) =>
      KeepDistinct(c, {k});
      FrontDistinct(k, c, now);
    case Put(k, e, budget) =>
      KeepDistinct(c, {k});
      NewFrontDistinct(c, Item(k, e));
      FitIsLongestPrefix([Item(k, e)] + Keep(c, {k}), budget);
    case Invalidate(host, path) =>
      KeepDistinct(c, MatchingKeys(c, host, path));
  }

  lemma NewFrontDistinct(c: seq<Item>, x: Item)
    requires DistinctKeys(c)
    ensures DistinctKeys([x] + Keep(c, {x.key}))
  {
    KeepDistinct(c, {x.key});
    KeepMembers(c, {x.key});
    var k := Keep(c, {x.key});
    forall i | 0 <= i < |k| ensures k[i].key != x.key {
      assert k[i] in k;
    }
  }

  lemma FrontDistinct(k: Key, c: seq<Item>, now: int)
    requires DistinctKeys(c)
    ensures DistinctKeys(Looked(c, k, now))
  {
    KeepDistinct(c, {k});
    match Find(c, k)
    case None =>
    case Some(e) => NewFrontDistinct(c, Item(k, e));
  }

  /** After any run the items have distinct keys. */
  lemma {:induction false} RunDistinct(ops: seq<Op>)
    ensures DistinctKeys(After(ops))
  {
    if ops != [] {
      RunDistinct(ops[..|ops| - 1]);
      StepDistinct(After(ops[..|ops| - 1]), ops[|ops| - 1]);
    }
  }

  /** Operation i of the run stored e under k: a Put that the budget it loaded let in. */
  ghost predicate StoredAt(ops: seq<Op>, i: nat, k: Key, e: Entry) {
    i < |ops| && ops[i].Put? && ops[i].k == k && ops[i].e == e && Size(e) <= ops[i].budget
  }

  /** Operation j of the run ends whatever was stored under k before it. */
  ghost predicate Supersedes(ops: seq<Op>, j: nat, k: Key)
    requires j < |ops|
  {
    match ops[j]
    case Put(l, e, budget) => l == k && Size(e) <= budget
    case Invalidate(host, path) => Matching(k, host, path)
    case _ => false
  }

  ghost predicate LastStore(ops: seq<Op>, i: nat, k: Key, e: Entry) {
    StoredAt(ops, i, k, e) && forall j: nat :: i < j < |ops| ==> !Supersedes(ops, j, k)
  }

  lemma LastStoreExtends(ops: seq<Op>, i: nat, k: Key, e: Entry)
    requires ops != [] && LastStore(ops[..|ops| - 1], i, k, e) && !Supersedes(ops, |ops| - 1, k)
    ensures LastStore(ops, i, k, e)
  {
    var init := ops[..|ops| - 1];
    forall j: nat | j < |init| ensures init[..j] == ops[..j] {}
    forall j: nat | i < j < |ops| ensures !Supersedes(ops, j, k) {
      if j < |init| { assert init[..j] == ops[..j] && !Supersedes(init, j, k); }
    }
  }

  /** Whatever is in the cache is the last entry accepted under its key, with no later
      invalidation of its path. */
  lemma {:induction false} ItemIsLastStore(ops: seq<Op>, x: Item) returns (i: nat)
    requires x in After(ops)
    ensures LastStore(ops, i, x.key, x.entry)
  {
    var n := |ops| - 1;
    var init := ops[..n];
    var c := After(init);
    match ops[n] {
      case Lookup(k, now) => LookedMembers(c, k, now, x);
      case Put(k, e, budget) =>
        StoredMembers(c, k, e, budget, x);
        if Size(e) <= budget && x == Item(k, e) {
          i := n;
          return;
        }
      case Invalidate(host, path) => InvalidatedMembers(c, host, path, x);
    }
    i := ItemIsLastStore(init, x);
    LastStoreExtends(ops, i, x.key, x.entry);
  }

  /** Every hit is fresh and is the last entry accepted under its key, with no later
      invalidation of its path. */
  lemma HitIsLastStore(ops: seq<Op>, k: Key, now: int) returns (i: nat)
    requires Hit(After(ops), k, now).Some?
    ensures var e := Hit(After(ops), k, now).value;
            now < e.expiresAt && LastStore(ops, i, k, e)
  {
    var c := After(ops);
    i := ItemIsLastStore(ops, Item(k, Find(c, k).value));
  }

  // ----- the memory bound -----

  lemma {:induction false} BytesOfPrefixed(x: Item, c: seq<Item>)
    ensures Bytes([x] + c) == Size(x.entry) + Bytes(c)
  {
    if c == [] {
      assert [x] + c == [x] && [x][..0] == [];
    } else {
      BytesOfPrefixed(x, c[..|c| - 1]);
      assert ([x] + c)[..|c|] == [x] + c[..|c| - 1];
    }
  }

  lemma {:induction false} BytesAppend(a: seq<Item>, b: seq<Item>)
    ensures Bytes(a + b) == Bytes(a) + Bytes(b)
  {
    if b == [] {
      assert a + b == a;
    } else {
      BytesAppend(a, b[..|b| - 1]);
      assert (a + b)[..|a + b| - 1] == a + b[..|b| - 1];
    }
  }

  /** Dropping keys never adds bytes, and dropping a present one frees its size. */
  lemma {:induction false} KeepBytes(c: seq<Item>, drop: set<Key>)
    ensures Bytes(Keep(c, drop)) <= Bytes(c)
  {
    if c != [] {
      var init, x := c[..|c| - 1], c[|c| - 1];
      KeepBytes(init, drop);
      var k := Keep(init, drop);
      if x.key in drop { assert k + [] == k; } else { assert (k + [x])[..|k|] == k; }
    }
  }

  lemma {:induction false} KeepFrees(c: seq<Item>, k: Key)
    requires Find(c, k).Some?
    ensures Bytes(Keep(c, {k})) + Size(Find(c, k).value) <= Bytes(c)
  {
    var init, x := c[..|c| - 1], c[|c| - 1];
    if x.key == k {
      KeepBytes(init, {k});
      assert Keep(c, {k}) == Keep(init, {k});
    } else {
      KeepFrees(init, k);
      var kept := Keep(init, {k});
      assert (kept + [x])[..|kept|] == kept;
    }
  }

  lemma LookedBytes(c: seq<Item>, k: Key, now: int)
    ensures Bytes(Looked(c, k, now)) <= Bytes(c)
  {
    match Find(c, k)
    case None =>
    case Some(e) =>
      KeepFrees(c, k);
      BytesOfPrefixed(Item(k, e), Keep(c, {k}));
  }

  /** The bytes held never exceed the largest budget a store has loaded, and an accepted one brings
      them within the budget it loaded itself. */
  lemma {:induction false} MemoryIsBounded(ops: seq<Op>, most: nat)
    requires forall i :: 0 <= i < |ops| && ops[i].Put? ==> ops[i].budget <= most
    ensures Bytes(After(ops)) <= most
    ensures ops != [] && ops[|ops| - 1].Put? && Size(ops[|ops| - 1].e) <= ops[|ops| - 1].budget ==>
              Bytes(After(ops)) <= ops[|ops| - 1].budget
  {
    if ops != [] {
      var init, op := ops[..|ops| - 1], ops[|ops| - 1];
      MemoryIsBounded(init, most);
      var c := After(init);
      match op
      case Lookup(k, now) => LookedBytes(c, k, now);
      case Put(k, e, budget) => FitIsLongestPrefix([Item(k, e)] + Keep(c, {k}), budget);
      case Invalidate(host, path) => KeepBytes(c, MatchingKeys(c, host, path));
    }
  }

  /** The bytes of the bodies alone. */
  function BodyBytes(c: seq<Item>): nat {
    if c == [] then 0 else BodyBytes(c[..|c| - 1]) + |c[|c| - 1].entry.body|
  }

  lemma {:induction false} BodiesCount(c: seq<Item>)
    ensures BodyBytes(c) + 256 * |c| <= Bytes(c)
  {
    if c != [] { BodiesCount(c[..|c| - 1]); }
  }

  /** The bodies held and 256 bytes for each are within the largest budget a store has loaded. */
  lemma BodiesAreBounded(ops: seq<Op>, most: nat)
    requires forall i :: 0 <= i < |ops| && ops[i].Put? ==> ops[i].budget <= most
    ensures BodyBytes(After(ops)) + 256 * |After(ops)| <= most
  {
    MemoryIsBounded(ops, most);
    BodiesCount(After(ops));
  }

  /** An invalidation drops every entry of that host and path, whatever its query and coding, and only
      those. */
  lemma InvalidatedExactly(c: seq<Item>, host: string, path: string, x: Item)
    ensures x in Invalidated(c, host, path) <==> x in c && !(x.key.host == host && x.key.path == path)
  {
    KeepMembers(c, MatchingKeys(c, host, path));
    if x in c && x.key in MatchingKeys(c, host, path) {
      var i :| 0 <= i < |c| && Matching(c[i].key, host, path) && c[i].key == x.key;
    }
    if x in c && x.key.host == host && x.key.path == path {
      var i :| 0 <= i < |c| && c[i] == x;
      assert Matching(c[i].key, host, path);
    }
  }

  // ----- recency -----

  lemma TwoFit(c: seq<Item>, budget: int)
    requires |c| >= 2 && Size(c[0].entry) + Size(c[1].entry) <= budget
    ensures |Fit(c, budget)| >= 2 && Fit(c, budget)[1] == c[1]
  {
    FitIsLongestPrefix(c, budget);
    var one, two := c[..1], c[..2];
    assert one[..|one| - 1] == [] && Bytes(one) == Size(c[0].entry);
    assert two[..|two| - 1] == one && Bytes(two) == Size(c[0].entry) + Size(c[1].entry);
  }

  /** What was just served is the last to go: the next entry stored does not push it out unless
      the two together exceed the budget. */
  lemma JustUsedSurvives(c: seq<Item>, k: Key, now: int, l: Key, e: Entry, budget: int)
    requires Hit(c, k, now).Some? && l != k
    requires Size(e) + Size(Hit(c, k, now).value) <= budget
    ensures Item(k, Hit(c, k, now).value) in Stored(Looked(c, k, now), l, e, budget)
  {
    var x := Item(k, Hit(c, k, now).value);
    var rest := Keep(c, {k});
    KeepOfPrefixed(x, rest, {l});
    TwoFit([Item(l, e)] + Keep([x] + rest, {l}), budget);
  }

  lemma {:induction false} KeepOfPrefixed(x: Item, c: seq<Item>, drop: set<Key>)
    requires x.key !in drop
    ensures Keep([x] + c, drop) == [x] + Keep(c, drop)
  {
    if c == [] {
      assert [x] + c == [x] && [x][..0] == [];
    } else {
      var init := c[..|c| - 1];
      KeepOfPrefixed(x, init, drop);
      assert ([x] + c)[..|c|] == [x] + init;
    }
  }

  /** op uses key k of the items c: it stores under it or is served from it. */
  predicate Uses(c: seq<Item>, op: Op, k: Key) {
    match op
    case Put(l, e, budget) => l == k && Size(e) <= budget
    case Lookup(l, now) => l == k && Hit(c, k, now).Some?
    case _ => false
  }

  /** How many operations had run when k was last used; 0 if it never was. */
  function LastUse(ops: seq<Op>, k: Key): (u: nat)
    ensures u <= |ops|
  {
    if ops == [] then 0
    else if Uses(After(ops[..|ops| - 1]), ops[|ops| - 1], k) then |ops|
    else LastUse(ops[..|ops| - 1], k)
  }

  ghost predicate UsedAt(ops: seq<Op>, i: nat, k: Key)
    requires i < |ops|
  {
    Uses(After(ops[..i]), ops[i], k)
  }

  lemma UsedOfPrefix(ops: seq<Op>, n: nat, i: nat, k: Key)
    requires i < n <= |ops|
    ensures UsedAt(ops[..n], i, k) == UsedAt(ops, i, k)
  {
    assert ops[..n][..i] == ops[..i];
  }

  /** LastUse is the last operation of the run that used k. */
  lemma {:induction false} LastUseMeans(ops: seq<Op>, k: Key, i: nat)
    requires i < |ops|
    ensures LastUse(ops, k) == i + 1 ==> UsedAt(ops, i, k)
    ensures LastUse(ops, k) <= i ==> !UsedAt(ops, i, k)
  {
    if i < |ops| - 1 {
      LastUseMeans(ops[..|ops| - 1], k, i);
      UsedOfPrefix(ops, |ops| - 1, i, k);
    }
  }

  /** Item q was last used before item p. */
  ghost predicate UsedBefore(ops: seq<Op>, c: seq<Item>, p: nat, q: nat)
    requires p < |c| && q < |c|
  {
    LastUse(ops, c[q].key) < LastUse(ops, c[p].key)
  }

  ghost predicate Recent(ops: seq<Op>, c: seq<Item>) {
    forall p, q :: 0 <= p < q < |c| ==> UsedBefore(ops, c, p, q)
  }

  lemma RecentPrefix(ops: seq<Op>, c: seq<Item>, d: seq<Item>)
    requires Recent(ops, c) && d <= c
    ensures Recent(ops, d)
  {
    forall p, q | 0 <= p < q < |d| ensures UsedBefore(ops, d, p, q) {
      assert UsedBefore(ops, c, p, q);
    }
  }

  lemma RecentMore(ops: seq<Op>, c: seq<Item>, x: Item)
    requires Recent(ops, c) && forall y :: y in c ==> LastUse(ops, x.key) < LastUse(ops, y.key)
    ensures Recent(ops, c + [x])
  {
    var d := c + [x];
    forall p, q | 0 <= p < q < |d| ensures UsedBefore(ops, d, p, q) {
      if q < |c| { assert UsedBefore(ops, c, p, q); } else { assert d[p] in c; }
    }
  }

  lemma LastIsOldest(ops: seq<Op>, c: seq<Item>, y: Item)
    requires Recent(ops, c) && c != [] && y in c[..|c| - 1]
    ensures LastUse(ops, c[|c| - 1].key) < LastUse(ops, y.key)
  {
    var p :| 0 <= p < |c| - 1 && c[..|c| - 1][p] == y;
    assert UsedBefore(ops, c, p, |c| - 1);
  }

  lemma {:induction false} KeepRecent(ops: seq<Op>, c: seq<Item>, drop: set<Key>)
    requires Recent(ops, c)
    ensures Recent(ops, Keep(c, drop))
  {
    if c != [] {
      var n := |c| - 1;
      var init := c[..n];
      RecentPrefix(ops, c, init);
      KeepRecent(ops, init, drop);
      if c[n].key in drop {
        assert Keep(c, drop) == Keep(init, drop);
      } else {
        KeepMembers(init, drop);
        forall y | y in Keep(init, drop) ensures LastUse(ops, c[n].key) < LastUse(ops, y.key) {
          LastIsOldest(ops, c, y);
        }
        RecentMore(ops, Keep(init, drop), c[n]);
      }
    }
  }

  /** An operation that uses none of the items left does not disturb their order. */
  lemma RecentStays(ops: seq<Op>, c: seq<Item>)
    requires ops != [] && Recent(ops[..|ops| - 1], c)
    requires forall i :: 0 <= i < |c| ==> !Uses(After(ops[..|ops| - 1]), ops[|ops| - 1], c[i].key)
    ensures Recent(ops, c)
  {
    forall p, q | 0 <= p < q < |c| ensures UsedBefore(ops, c, p, q) {
      assert UsedBefore(ops[..|ops| - 1], c, p, q);
    }
  }

  lemma RecentFront(ops: seq<Op>, c: seq<Item>, x: Item)
    requires ops != [] && Recent(ops[..|ops| - 1], c)
    requires Uses(After(ops[..|ops| - 1]), ops[|ops| - 1], x.key)
    requires forall y :: y in c ==> y.key != x.key
    ensures Recent(ops, [x] + c)
  {
    RecentStays(ops, c);
    var d := [x] + c;
    forall p, q | 0 <= p < q < |d| ensures UsedBefore(ops, d, p, q) {
      assert d[q] == c[q - 1] && d[q] in c;
      if p > 0 { assert UsedBefore(ops, c, p - 1, q - 1); }
    }
  }

  lemma UseGoesFirst(ops: seq<Op>, k: Key, e: Entry)
    requires ops != [] && Recent(ops[..|ops| - 1], After(ops[..|ops| - 1]))
    requires Uses(After(ops[..|ops| - 1]), ops[|ops| - 1], k)
    ensures Recent(ops, [Item(k, e)] + Keep(After(ops[..|ops| - 1]), {k}))
  {
    var init := ops[..|ops| - 1];
    KeepRecent(init, After(init), {k});
    KeepMembers(After(init), {k});
    RecentFront(ops, Keep(After(init), {k}), Item(k, e));
  }

  lemma NoUseKeeps(ops: seq<Op>, drop: set<Key>)
    requires ops != [] && Recent(ops[..|ops| - 1], After(ops[..|ops| - 1]))
    requires forall k :: k !in drop ==> !Uses(After(ops[..|ops| - 1]), ops[|ops| - 1], k)
    ensures Recent(ops, Keep(After(ops[..|ops| - 1]), drop))
  {
    var init := ops[..|ops| - 1];
    var c := After(init);
    KeepRecent(init, c, drop);
    KeepMembers(c, drop);
    var d := Keep(c, drop);
    forall i | 0 <= i < |d| ensures d[i].key !in drop { assert d[i] in d; }
    RecentStays(ops, d);
  }

  /** After any run the items stand in the order of their last use, latest first, so the entry
      evicted is always the least recently used one. */
  lemma {:induction false} OrderIsLastUse(ops: seq<Op>)
    ensures Recent(ops, After(ops))
  {
    if ops != [] {
      var init, op := ops[..|ops| - 1], ops[|ops| - 1];
      OrderIsLastUse(init);
      var c := After(init);
      KeepAll(c, {});
      match op
      case Lookup(k, now) =>
        if Hit(c, k, now).Some? {
          UseGoesFirst(ops, k, Hit(c, k, now).value);
        } else {
          NoUseKeeps(ops, {});
          NoUseKeeps(ops, {k});
        }
      case Put(k, e, budget) =>
        if Size(e) <= budget {
          UseGoesFirst(ops, k, e);
          FitIsLongestPrefix([Item(k, e)] + Keep(c, {k}), budget);
          RecentPrefix(ops, [Item(k, e)] + Keep(c, {k}), After(ops));
        } else {
          NoUseKeeps(ops, {});
        }
      case Invalidate(host, path) => NoUseKeeps(ops, MatchingKeys(c, host, path));
    }
  }

  // ----- retention -----

  /** What the keys ks weigh together, at w each. */
  function Total(ks: seq<Key>, w: Key -> nat): nat {
    if ks == [] then 0 else Total(ks[..|ks| - 1], w) + w(ks[|ks| - 1])
  }

  lemma {:induction false} TotalWithout(ks: seq<Key>, w: Key -> nat, j: nat)
    requires j < |ks|
    ensures Total(ks, w) == Total(ks[..j] + ks[j + 1..], w) + w(ks[j])
  {
    var n := |ks| - 1;
    if j == n {
      assert ks[..j] + ks[j + 1..] == ks[..n];
    } else {
      TotalWithout(ks[..n], w, j);
      var cut, less := ks[..j] + ks[j + 1..], ks[..n][..j] + ks[..n][j + 1..];
      assert cut[..|cut| - 1] == less && cut[|cut| - 1] == ks[n];
    }
  }

  /** Every item has its key among ks and weighs at most w of it. */
  ghost predicate Light(c: seq<Item>, ks: seq<Key>, w: Key -> nat) {
    forall i :: 0 <= i < |c| ==> c[i].key in ks && Size(c[i].entry) <= w(c[i].key)
  }

  lemma {:induction false} LightBytes(c: seq<Item>, ks: seq<Key>, w: Key -> nat)
    requires DistinctKeys(c) && Light(c, ks, w)
    ensures Bytes(c) <= Total(ks, w)
  {
    if c != [] {
      var init, x := c[..|c| - 1], c[|c| - 1];
      var j :| 0 <= j < |ks| && ks[j] == x.key;
      var less := ks[..j] + ks[j + 1..];
      forall i | 0 <= i < |init| ensures init[i].key in less && Size(init[i].entry) <= w(init[i].key) {
        var o :| 0 <= o < |ks| && ks[o] == c[i].key;
        assert less[if o < j then o else o - 1] == ks[o];
      }
      LightBytes(init, less, w);
      TotalWithout(ks, w, j);
    }
  }

  /** The item (k, e) is there, with only light ones ahead of it. */
  ghost predicate Ahead(c: seq<Item>, k: Key, e: Entry, ks: seq<Key>, w: Key -> nat) {
    exists q :: 0 <= q < |c| && c[q] == Item(k, e) && Light(c[..q], ks, w)
  }

  lemma {:induction false} KeepAppend(a: seq<Item>, b: seq<Item>, drop: set<Key>)
    ensures Keep(a + b, drop) == Keep(a, drop) + Keep(b, drop)
  {
    if b == [] {
      assert a + b == a && Keep(a, drop) + Keep(b, drop) == Keep(a, drop);
    } else {
      var n := |b| - 1;
      KeepAppend(a, b[..n], drop);
      assert (a + b)[..|a + b| - 1] == a + b[..n];
    }
  }

  lemma KeepLight(c: seq<Item>, ks: seq<Key>, w: Key -> nat, drop: set<Key>)
    requires Light(c, ks, w)
    ensures Light(Keep(c, drop), ks, w)
  {
    KeepMembers(c, drop);
    var d := Keep(c, drop);
    forall i | 0 <= i < |d| ensures d[i].key in ks && Size(d[i].entry) <= w(d[i].key) {
      assert d[i] in d;
    }
  }

  lemma AheadKeep(c: seq<Item>, k: Key, e: Entry, ks: seq<Key>, w: Key -> nat, drop: set<Key>)
    requires Ahead(c, k, e, ks, w) && k !in drop
    ensures Ahead(Keep(c, drop), k, e, ks, w)
  {
    var q :| 0 <= q < |c| && c[q] == Item(k, e) && Light(c[..q], ks, w);
    var rest := [c[q]] + c[q + 1..];
    assert c == c[..q] + rest;
    KeepAppend(c[..q], rest, drop);
    KeepOfPrefixed(c[q], c[q + 1..], drop);
    KeepLight(c[..q], ks, w, drop);
    var d, p := Keep(c, drop), |Keep(c[..q], drop)|;
    assert d[p] == c[q] && d[..p] == Keep(c[..q], drop);
  }

  lemma AheadFront(c: seq<Item>, k: Key, e: Entry, ks: seq<Key>, w: Key -> nat, x: Item)
    requires Ahead(c, k, e, ks, w) && x.key in ks && Size(x.entry) <= w(x.key)
    ensures Ahead([x] + c, k, e, ks, w)
  {
    var q :| 0 <= q < |c| && c[q] == Item(k, e) && Light(c[..q], ks, w);
    var d := [x] + c;
    assert d[q + 1] == c[q] && d[..q + 1] == [x] + c[..q];
  }

  lemma AheadFit(c: seq<Item>, k: Key, e: Entry, ks: seq<Key>, w: Key -> nat, budget: int)
    requires Ahead(c, k, e, ks, w) && DistinctKeys(c) && Total(ks, w) + Size(e) <= budget
    ensures Ahead(Fit(c, budget), k, e, ks, w)
  {
    var q :| 0 <= q < |c| && c[q] == Item(k, e) && Light(c[..q], ks, w);
    LightBytes(c[..q], ks, w);
    var up := c[..q + 1];
    assert up[..|up| - 1] == c[..q] && up[|up| - 1] == c[q];
    FitIsLongestPrefix(c, budget);
    var f := Fit(c, budget);
    assert |f| > q;
    assert f[q] == c[q] && f[..q] == c[..q];
  }

  /** Operation i of the run does not end the item (k, e): it does not invalidate its path, store under
      its key or find it stale, and what else it uses is one of ks and no heavier than w; a store
      loaded a budget that holds them all. */
  ghost predicate Spares(ops: seq<Op>, i: nat, k: Key, e: Entry, ks: seq<Key>, w: Key -> nat)
    requires i < |ops|
  {
    match ops[i]
    case Lookup(l, now) =>
      if l == k then Fresh(e, now)
      else
        var hit := Hit(After(ops[..i]), l, now);
        hit.Some? ==> l in ks && Size(hit.value) <= w(l)
    case Put(l, x, budget) =>
      Size(x) <= budget ==> l != k && l in ks && Size(x) <= w(l) && Total(ks, w) + Size(e) <= budget
    case Invalidate(host, path) => !Matching(k, host, path)
  }

  lemma AheadFinds(c: seq<Item>, k: Key, e: Entry, ks: seq<Key>, w: Key -> nat)
    requires Ahead(c, k, e, ks, w) && DistinctKeys(c)
    ensures Find(c, k) == Some(e)
  {
    var q :| 0 <= q < |c| && c[q] == Item(k, e) && Light(c[..q], ks, w);
    var j :| 0 <= j < |c| && c[j] == Item(k, Find(c, k).value);
  }

  lemma AheadLooked(c: seq<Item>, k: Key, e: Entry, ks: seq<Key>, w: Key -> nat, l: Key, now: int)
    requires Ahead(c, k, e, ks, w) && DistinctKeys(c)
    requires if l == k then Fresh(e, now) else Hit(c, l, now).Some? ==> l in ks && Size(Hit(c, l, now).value) <= w(l)
    ensures Ahead(Looked(c, l, now), k, e, ks, w)
  {
    if l == k {
      AheadFinds(c, k, e, ks, w);
      var d := Looked(c, l, now);
      assert d[0] == Item(k, e) && d[..0] == [];
    } else {
      AheadKeep(c, k, e, ks, w, {l});
      if Hit(c, l, now).Some? { AheadFront(Keep(c, {l}), k, e, ks, w, Item(l, Hit(c, l, now).value)); }
    }
  }

  lemma AheadStored(c: seq<Item>, k: Key, e: Entry, ks: seq<Key>, w: Key -> nat, l: Key, x: Entry, budget: int)
    requires Ahead(c, k, e, ks, w) && DistinctKeys(c)
    requires Size(x) <= budget ==> l != k && l in ks && Size(x) <= w(l) && Total(ks, w) + Size(e) <= budget
    ensures Ahead(Stored(c, l, x, budget), k, e, ks, w)
  {
    if Size(x) <= budget {
      AheadKeep(c, k, e, ks, w, {l});
      AheadFront(Keep(c, {l}), k, e, ks, w, Item(l, x));
      NewFrontDistinct(c, Item(l, x));
      AheadFit([Item(l, x)] + Keep(c, {l}), k, e, ks, w, budget);
    }
  }

  lemma AheadNext(ops: seq<Op>, k: Key, e: Entry, ks: seq<Key>, w: Key -> nat)
    requires ops != [] && Ahead(After(ops[..|ops| - 1]), k, e, ks, w) && Spares(ops, |ops| - 1, k, e, ks, w)
    ensures Ahead(After(ops), k, e, ks, w)
  {
    var c := After(ops[..|ops| - 1]);
    RunDistinct(ops[..|ops| - 1]);
    match ops[|ops| - 1]
    case Lookup(l, now) => AheadLooked(c, k, e, ks, w, l, now);
    case Put(l, x, budget) => AheadStored(c, k, e, ks, w, l, x, budget);
    case Invalidate(host, path) => AheadKeep(c, k, e, ks, w, MatchingKeys(c, host, path));
  }

  lemma SparesPrefix(ops: seq<Op>, n: nat, i: nat, k: Key, e: Entry, ks: seq<Key>, w: Key -> nat)
    requires i < n <= |ops| && Spares(ops, i, k, e, ks, w)
    ensures Spares(ops[..n], i, k, e, ks, w)
  {
    assert ops[..n][..i] == ops[..i];
  }

  lemma {:induction false} StaysAhead(ops: seq<Op>, u: nat, k: Key, e: Entry, ks: seq<Key>, w: Key -> nat)
    requires u <= |ops| && Ahead(After(ops[..u]), k, e, ks, w)
    requires forall i :: u <= i < |ops| ==> Spares(ops, i, k, e, ks, w)
    ensures Ahead(After(ops), k, e, ks, w)
  {
    if u == |ops| {
      assert ops[..u] == ops;
    } else {
      var n := |ops| - 1;
      var init := ops[..n];
      assert init[..u] == ops[..u];
      forall i | u <= i < n ensures Spares(init, i, k, e, ks, w) { SparesPrefix(ops, n, i, k, e, ks, w); }
      StaysAhead(init, u, k, e, ks, w);
      AheadNext(ops, k, e, ks, w);
    }
  }

  /** What was just used stands first. */
  lemma UsedIsFirst(ops: seq<Op>, k: Key)
    requires ops != [] && UsedAt(ops, |ops| - 1, k)
    ensures After(ops) != [] && After(ops)[0].key == k
  {
    var c := After(ops[..|ops| - 1]);
    match ops[|ops| - 1]
    case Lookup(l, now) =>
    case Put(l, x, budget) => NewestSurvives([Item(l, x)] + Keep(c, {l}), budget);
  }

  /** Retention: an entry used at operation u - 1 is still cached at the end of the run when nothing
      since has superseded it or found it stale, and all that was used since fits every budget loaded
      since together with it. */
  lemma Retained(ops: seq<Op>, u: nat, k: Key, e: Entry, ks: seq<Key>, w: Key -> nat)
    requires 0 < u <= |ops| && UsedAt(ops, u - 1, k) && Item(k, e) in After(ops[..u])
    requires forall i :: u <= i < |ops| ==> Spares(ops, i, k, e, ks, w)
    ensures Find(After(ops), k) == Some(e)
    ensures forall now :: Hit(After(ops), k, now) == if now < e.expiresAt then Some(e) else None
  {
    var upTo := ops[..u];
    assert upTo[..u - 1] == ops[..u - 1];
    UsedIsFirst(upTo, k);
    RunDistinct(upTo);
    var c := After(upTo);
    var j :| 0 <= j < |c| && c[j] == Item(k, e);
    assert c[0] == Item(k, e) && c[..0] == [];
    StaysAhead(ops, u, k, e, ks, w);
    RunDistinct(ops);
    AheadFinds(After(ops), k, e, ks, w);
  }
}

/** Access lists, the cache of recently verified credentials in front of them, and when the
    cached decision is the uncached one.
 */
module AccessCache {
  import opened Basics

  // ----- the address half -----

  datatype Address = Address(bits: seq<bool>, zoned: bool)

  datatype Prefix = Prefix(bits: seq<bool>, len: nat)

  /** An action that is neither of the two can only come from a corrupted row. */
  datatype Action = Allow | Deny | Unknown

  /** prefix is None when the rule's CIDR does not parse. */
  datatype Rule = Rule(action: Action, prefix: Option<Prefix>)

  predicate Covers(p: Prefix, a: Address) {
    !a.zoned && |p.bits| == |a.bits| && p.len <= |p.bits| && p.bits[..p.len] == a.bits[..p.len]
  }

  /** A prefix covers the addresses of its own family, without a zone, that share its leading bits. */
  lemma CoversExactly(p: Prefix, a: Address)
    ensures Covers(p, a) <==>
            && !a.zoned && |p.bits| == |a.bits| && p.len <= |p.bits|
            && forall i :: 0 <= i < p.len ==> p.bits[i] == a.bits[i]
  {
    if p.len <= |p.bits| && |p.bits| == |a.bits| && (forall i :: 0 <= i < p.len ==> p.bits[i] == a.bits[i]) {
      assert p.bits[..p.len] == a.bits[..p.len];
    }
    if p.len <= |p.bits| && |p.bits| == |a.bits| && p.bits[..p.len] == a.bits[..p.len] {
      forall i | 0 <= i < p.len ensures p.bits[i] == a.bits[i] {
        assert p.bits[..p.len][i] == a.bits[..p.len][i];
      }
    }
  }

  /** The rules let the address pass: every rule readable, no deny covering it, and either no
      allow rule at all or some rule covering it. Said of the rules as a collection. */
  ghost predicate AddressOk(rules: multiset<Rule>, client: Option<Address>) {
    || rules == multiset{}
    || (&& client.Some?
        && (forall r :: r in rules ==> r.prefix.Some?)
        && (forall r :: r in rules && r.action == Deny ==> !Covers(r.prefix.value, client.value))
        && ((forall r :: r in rules ==> r.action != Allow) || exists r :: r in rules && Covers(r.prefix.value, client.value)))
  }

  /** The same in terms of the rules one by one. */
  lemma AddressOkExactly(rules: seq<Rule>, client: Option<Address>)
    ensures AddressOk(multiset(rules), client) <==>
            || rules == []
            || (&& client.Some?
                && (forall i :: 0 <= i < |rules| ==> rules[i].prefix.Some?)
                && (forall i :: 0 <= i < |rules| && rules[i].action.Deny? ==> !Covers(rules[i].prefix.value, client.value))
                && ((forall i :: 0 <= i < |rules| ==> !rules[i].action.Allow?)
                    || exists i :: 0 <= i < |rules| && Covers(rules[i].prefix.value, client.value)))
  {
    IndexOfMember(rules);
    if rules != [] { assert rules[0] in multiset(rules); }
  }

  method AllowsAddress(rules: seq<Rule>, client: Option<Address>) returns (ok: bool)
    ensures ok <==> AddressOk(multiset(rules), client)
  {
    if |rules| == 0 { return true; }
    assert rules[0] in multiset(rules);
    if client.None? { return false; }
    var hasAllow, matchedAllow := false, false;
    for i := 0 to |rules|
      invariant forall k :: 0 <= k < i ==> rules[k].prefix.Some? && !(rules[k].action == Deny && Covers(rules[k].prefix.value, client.value))
      invariant hasAllow <==> exists k :: 0 <= k < i && rules[k].action == Allow
      invariant matchedAllow <==> exists k :: 0 <= k < i && rules[k].prefix.Some? && Covers(rules[k].prefix.value, client.value)
    {
      var r := rules[i];
      assert r in multiset(rules);
      if r.prefix.None? { return false; }
      if r.action == Allow { hasAllow := true; }
      if !Covers(r.prefix.value, client.value) { continue; }
      if r.action == Deny { return false; }
      matchedAllow := true;
    }
    IndexOfMember(rules);
    return !hasAllow || matchedAllow;
  }

  lemma IndexOfMember(rules: seq<Rule>)
    ensures forall r :: r in multiset(rules) ==> exists k :: 0 <= k < |rules| && rules[k] == r
    ensures forall k :: 0 <= k < |rules| ==> rules[k] in multiset(rules)
  {
    forall r | r in multiset(rules) ensures exists k :: 0 <= k < |rules| && rules[k] == r {
      assert r in rules;
    }
  }

  // ----- the whole decision -----

  datatype User = User(name: string, hash: string)

  datatype AccessList = AccessList(id: int, version: int, rules: seq<Rule>, users: seq<User>, satisfyAny: bool)

  datatype Credentials = Credentials(user: string, password: string, present: bool, verified: bool)

  datatype Decision = Granted | Refused | NeedsCredentials

  /** check stands for the password hash comparison. */
  type Check = (string, string) -> bool

  /** The first user with the name decides. */
  function FirstUser(users: seq<User>, name: string, password: string, check: Check): bool {
    if users == [] then false
    else if users[0].name == name then check(users[0].hash, password)
    else FirstUser(users[1..], name, password, check)
  }

  function Accepts(l: AccessList, c: Credentials, check: Check): bool {
    c.present && (c.verified || FirstUser(l.users, c.user, c.password, check))
  }

  ghost function Evaluate(l: AccessList, client: Option<Address>, c: Credentials, check: Check): Decision {
    var addressOk := AddressOk(multiset(l.rules), client);
    if l.satisfyAny && addressOk then Granted
    else if !l.satisfyAny && !addressOk then Refused
    else if l.users == [] then (if addressOk then Granted else Refused)
    else if Accepts(l, c, check) then Granted
    else NeedsCredentials
  }

  lemma {:induction false} PasswordIsFirst(users: seq<User>, name: string, password: string, check: Check)
    ensures FirstUser(users, name, password, check) <==>
            exists i: nat :: FirstNamed(users, name, i) && check(users[i].hash, password)
  {
    if users != [] {
      PasswordIsFirst(users[1..], name, password, check);
      if users[0].name == name {
        assert FirstNamed(users, name, 0);
      } else {
        if i: nat :| FirstNamed(users, name, i) && check(users[i].hash, password) { FirstOfRest(users, name, i - 1); }
        if i: nat :| FirstNamed(users[1..], name, i) && check(users[1..][i].hash, password) { FirstOfRest(users, name, i); }
      }
    }
  }

  lemma FirstOfRest(users: seq<User>, name: string, i: nat)
    requires users != [] && users[0].name != name
    ensures FirstNamed(users[1..], name, i) <==> FirstNamed(users, name, i + 1)
  {
    var rest := users[1..];
    if FirstNamed(rest, name, i) {
      forall j | 0 <= j < i + 1 ensures users[j].name != name {
        if j > 0 { assert users[j] == rest[j - 1]; }
      }
    }
    if FirstNamed(users, name, i + 1) {
      forall j | 0 <= j < i ensures rest[j].name != name { assert rest[j] == users[j + 1]; }
    }
  }

  /** The three decisions. Satisfy any: the address, or a proven user. Satisfy all: the address, and a
      proven user where the list has users. Short of that a list with users asks for credentials,
      unless the address already ruled it out. */
  lemma DecidesExactly(l: AccessList, client: Option<Address>, c: Credentials, check: Check)
    ensures var addressOk := AddressOk(multiset(l.rules), client);
            var proven := c.present && (c.verified || exists i: nat :: FirstNamed(l.users, c.user, i) && check(l.users[i].hash, c.password));
            var d := Evaluate(l, client, c, check);
            && (d.Granted? <==>
                  if l.satisfyAny then addressOk || (l.users != [] && proven) else addressOk && (l.users == [] || proven))
            && (d.Refused? <==> !addressOk && (!l.satisfyAny || l.users == []))
            && (d.NeedsCredentials? <==> l.users != [] && !proven && (addressOk <==> !l.satisfyAny))
  {
    PasswordIsFirst(l.users, c.user, c.password, check);
  }

  // ----- the cache -----

  const AUTH_TTL: int := 30
  const AUTH_CACHE_MAX: nat := 4096

  datatype AuthKey = AuthKey(list: int, version: int, digest: nat)

  type Entries = map<AuthKey, int>

  /** digest stands for the length-prefixed hash of a credential. */
  type Digest = (string, string) -> nat

  ghost predicate Injective(digest: Digest) {
    forall u, p, v, q :: digest(u, p) == digest(v, q) ==> u == v && p == q
  }

  predicate IsGranted(m: Entries, k: AuthKey, now: int) { k in m && now <= m[k] }

  function Consulted(m: Entries, k: AuthKey, now: int): Entries {
    if k in m && now > m[k] then m - {k} else m
  }

  function Unexpired(m: Entries, now: int): (r: Entries)
    ensures forall k :: k in r <==> k in m && now <= m[k]
    ensures forall k :: k in r ==> r[k] == m[k]
  {
    map k | k in m && now <= m[k] :: m[k]
  }

  function Remembered(m: Entries, k: AuthKey, now: int): Entries {
    var kept :=
      if |m| < AUTH_CACHE_MAX then m
      else if |Unexpired(m, now)| < AUTH_CACHE_MAX then Unexpired(m, now)
      else map[];
    kept[k := now + AUTH_TTL]
  }

  class AuthCache {
    var entries: Entries

    constructor ()
      ensures entries == map[]
    {
      entries := map[];
    }

    method Granted(key: AuthKey, now: int) returns (r: bool)
      modifies this
      ensures r == IsGranted(old(entries), key, now) && entries == Consulted(old(entries), key, now)
    {
      if key !in entries { return false; }
      if now > entries[key] {
        entries := entries - {key};
        return false;
      }
      return true;
    }

    method Remember(key: AuthKey, now: int)
      modifies this
      ensures entries == Remembered(old(entries), key, now)
    {
      if |entries| >= AUTH_CACHE_MAX {
        EvictExpired(now);
        if |entries| >= AUTH_CACHE_MAX {
          entries := map[];
        }
      }
      entries := entries[key := now + AUTH_TTL];
    }

    method EvictExpired(now: int)
      modifies this
      ensures entries == Unexpired(old(entries), now)
    {
      var keys := entries.Keys;
      while keys != {}
        invariant keys <= entries.Keys <= old(entries).Keys
        invariant forall k :: k in entries ==> entries[k] == old(entries)[k]
        invariant forall k :: k in old(entries) ==> (k in entries <==> k in keys || now <= old(entries)[k])
        decreases |keys|
      {
        var k :| k in keys;
        keys := keys - {k};
        if now > entries[k] {
          entries := entries - {k};
        }
      }
    }

    /** What a request learns from the cache before its password is looked at. */
    method Consult(req: Request, digest: Digest, now: int) returns (hit: bool)
      modifies this
      ensures hit == Hits(old(entries), req, digest, now)
      ensures entries == AfterConsult(old(entries), req, digest, now)
    {
      hit := false;
      if req.present && |req.list.users| > 0 {
        hit := Granted(KeyOf(req, digest), now);
      }
    }

    /** The decision, with a hit standing in for a checked password, and what it leaves behind. */
    method Finish(req: Request, hit: bool, check: Check, digest: Digest, now: int) returns (decision: Decision)
      modifies this
      ensures decision == Decide(Pending(req, hit), check)
      ensures var addressOk := AddressOk(multiset(req.list.rules), req.client);
              var proven := req.present && (hit || PasswordOk(req, check));
              && (decision.Granted? <==>
                    if req.list.satisfyAny then addressOk || (req.list.users != [] && proven)
                    else addressOk && (req.list.users == [] || proven))
              && (decision.Refused? <==> !addressOk && (!req.list.satisfyAny || req.list.users == []))
      ensures entries == AfterFinish(old(entries), Pending(req, hit), check, digest, now)
    {
      var l := req.list;
      var creds := Credentials(req.user, req.password, req.present, hit);
      DecidesExactly(l, req.client, creds, check);
      PasswordIsFirst(l.users, req.user, req.password, check);
      var addressOk := AllowsAddress(l.rules, req.client);
      if l.satisfyAny && addressOk {
        decision := Decision.Granted;
      } else if !l.satisfyAny && !addressOk {
        decision := Refused;
      } else if |l.users| == 0 {
        decision := if addressOk then Decision.Granted else Refused;
      } else {
        decision := if Accepts(l, creds, check) then Decision.Granted else NeedsCredentials;
      }
      if decision == Decision.Granted && req.present && !hit && |l.users| > 0 {
        Remember(KeyOf(req, digest), now);
      }
    }
  }

  // ----- every interleaving of requests and edits -----

  /** One request against the list in force at the time. */
  datatype Request = Request(list: AccessList, client: Option<Address>, user: string, password: string, present: bool)

  /** A request between consulting the cache and finishing. */
  datatype Pending = Pending(req: Request, hit: bool)

  function KeyOf(r: Request, digest: Digest): AuthKey {
    AuthKey(r.list.id, r.list.version, digest(r.user, r.password))
  }

  predicate UsesCache(r: Request) { r.present && r.list.users != [] }

  predicate Hits(m: Entries, r: Request, digest: Digest, now: int) {
    UsesCache(r) && IsGranted(m, KeyOf(r, digest), now)
  }

  function AfterConsult(m: Entries, r: Request, digest: Digest, now: int): Entries {
    if UsesCache(r) then Consulted(m, KeyOf(r, digest), now) else m
  }

  ghost function Uncached(r: Request, check: Check): Decision {
    Evaluate(r.list, r.client, Credentials(r.user, r.password, r.present, false), check)
  }

  ghost function Decide(p: Pending, check: Check): Decision {
    Evaluate(p.req.list, p.req.client, Credentials(p.req.user, p.req.password, p.req.present, p.hit), check)
  }

  ghost predicate Remembers(p: Pending, check: Check) {
    Decide(p, check).Granted? && UsesCache(p.req) && !p.hit
  }

  ghost function AfterFinish(m: Entries, p: Pending, check: Check, digest: Digest, now: int): Entries {
    if Remembers(p, check) then Remembered(m, KeyOf(p.req, digest), now) else m
  }

  /** The cache is locked twice per request, around the slow password hash: other requests come
      in between. Each request has its own id. */
  datatype Event = Consult(id: nat, req: Request, now: int) | Finish(id: nat, now: int)

  datatype System = System(entries: Entries, pending: map<nat, Pending>)

  ghost function Next(s: System, e: Event, check: Check, digest: Digest): System {
    match e
    case Consult(id, r, now) =>
      if id in s.pending then s
      else System(AfterConsult(s.entries, r, digest, now), s.pending[id := Pending(r, Hits(s.entries, r, digest, now))])
    case Finish(id, now) =>
      if id !in s.pending then s
      else System(AfterFinish(s.entries, s.pending[id], check, digest, now), s.pending - {id})
  }

  ghost function Run(es: seq<Event>, check: Check, digest: Digest): System {
    if es == [] then System(map[], map[]) else Next(Run(es[..|es| - 1], check, digest), es[|es| - 1], check, digest)
  }

  lemma SizeWithout(m: Entries, k: AuthKey)
    ensures |m - {k}| <= |m|
  {
    if k in m { assert (m - {k})[k := m[k]] == m; } else { assert m - {k} == m; }
  }

  lemma SizeWith(m: Entries, k: AuthKey, t: int)
    ensures |m[k := t]| <= |m| + 1
  {
    assert m[k := t].Keys == m.Keys + {k};
  }

  lemma RememberedBounded(m: Entries, k: AuthKey, now: int)
    ensures |Remembered(m, k, now)| <= AUTH_CACHE_MAX
  {
    var kept := if |m| < AUTH_CACHE_MAX then m else if |Unexpired(m, now)| < AUTH_CACHE_MAX then Unexpired(m, now) else map[];
    SizeWith(kept, k, now + AUTH_TTL);
  }

  /** The cache never holds more than its maximum. */
  lemma {:induction false} CacheIsBounded(es: seq<Event>, check: Check, digest: Digest)
    ensures |Run(es, check, digest).entries| <= 4096
  {
    if es != [] {
      CacheIsBounded(es[..|es| - 1], check, digest);
      var s := Run(es[..|es| - 1], check, digest);
      match es[|es| - 1]
      case Consult(id, r, now) => SizeWithout(s.entries, KeyOf(r, digest));
      case Finish(id, now) =>
        if id in s.pending { RememberedBounded(s.entries, KeyOf(s.pending[id].req, digest), now); }
    }
  }

  /** What was just remembered is granted for thirty seconds and no longer. */
  lemma RememberedForThirty(m: Entries, k: AuthKey, now: int, at: int)
    ensures IsGranted(Remembered(m, k, now), k, at) <==> at <= now + 30
  {}

  /** No unexpired entry is given up for a new one unless 4096 of them are unexpired. */
  lemma UnexpiredSurvive(m: Entries, k: AuthKey, now: int, j: AuthKey)
    requires j in m && now <= m[j] && j != k
    requires |m| < 4096 || |set i | i in m && now <= m[i]| < 4096
    ensures j in Remembered(m, k, now) && Remembered(m, k, now)[j] == m[j]
  {
    assert Unexpired(m, now).Keys == set i | i in m && now <= m[i];
  }

  /** Consulting the cache gives up one entry at most: the request's own, once it has expired. */
  lemma ConsultKeepsTheRest(m: Entries, r: Request, digest: Digest, now: int, j: AuthKey)
    ensures j in AfterConsult(m, r, digest, now) <==>
            j in m && !(r.present && r.list.users != [] && j == KeyOf(r, digest) && m[j] < now)
    ensures j in AfterConsult(m, r, digest, now) ==> AfterConsult(m, r, digest, now)[j] == m[j]
  {}

  // ----- where entries come from -----

  /** User i is the first of that name. */
  ghost predicate FirstNamed(users: seq<User>, name: string, i: nat) {
    i < |users| && users[i].name == name && forall j :: 0 <= j < i ==> users[j].name != name
  }

  /** The first user of the request's name has a hash that its password passes. */
  ghost predicate PasswordOk(r: Request, check: Check) {
    exists i: nat :: FirstNamed(r.list.users, r.user, i) && check(r.list.users[i].hash, r.password)
  }

  /** The request that event j finished was let in without a hit, by its password, and left entry k
      with that expiry behind. */
  ghost predicate Vouches(es: seq<Event>, j: nat, k: AuthKey, expiry: int, check: Check, digest: Digest) {
    && j < |es| && es[j].Finish? && expiry == es[j].now + AUTH_TTL
    && var pending := Run(es[..j], check, digest).pending;
    && es[j].id in pending
    && var p := pending[es[j].id];
    && Remembers(p, check) && KeyOf(p.req, digest) == k && PasswordOk(p.req, check)
  }

  ghost predicate Vouched(es: seq<Event>, k: AuthKey, expiry: int, check: Check, digest: Digest) {
    exists j: nat :: Vouches(es, j, k, expiry, check, digest)
  }

  ghost predicate Trusted(es: seq<Event>, check: Check, digest: Digest) {
    var m := Run(es, check, digest).entries;
    forall k :: k in m ==> Vouched(es, k, m[k], check, digest)
  }

  /** A list edit always changes the version: the same id and version mean the same users. */
  ghost predicate EditsChangeVersion(es: seq<Event>) {
    forall i, j :: 0 <= i < |es| && 0 <= j < |es| && es[i].Consult? && es[j].Consult? ==>
      SameVersionSameUsers(es[i].req.list, es[j].req.list)
  }

  predicate SameVersionSameUsers(a: AccessList, b: AccessList) {
    a.id == b.id && a.version == b.version ==> a.users == b.users
  }

  /** A grant that uses the cache is earned by the password, never by the address alone. */
  ghost predicate PasswordDecides(r: Request) {
    UsesCache(r) ==> !(r.list.satisfyAny && AddressOk(multiset(r.list.rules), r.client))
  }

  /** If event j finished a request that is then remembered, its password decided. */
  ghost predicate EarnedAt(es: seq<Event>, j: nat, check: Check, digest: Digest)
    requires j < |es|
  {
    es[j].Finish? && es[j].id in Run(es[..j], check, digest).pending ==>
      var p := Run(es[..j], check, digest).pending[es[j].id];
      Remembers(p, check) ==> PasswordDecides(p.req)
  }

  ghost predicate AllEarned(es: seq<Event>, check: Check, digest: Digest) {
    forall j :: 0 <= j < |es| ==> EarnedAt(es, j, check, digest)
  }

  lemma EarnedPrefix(es: seq<Event>, check: Check, digest: Digest)
    requires es != [] && AllEarned(es, check, digest)
    ensures AllEarned(es[..|es| - 1], check, digest)
  {
    var init := es[..|es| - 1];
    forall j | 0 <= j < |init| ensures EarnedAt(init, j, check, digest) {
      assert init[..j] == es[..j] && EarnedAt(es, j, check, digest);
    }
  }

  /** Requests of which none could be admitted by its address alone are all of them earned. */
  lemma EarnedIfAsked(es: seq<Event>, check: Check, digest: Digest)
    requires forall i :: 0 <= i < |es| && es[i].Consult? ==> PasswordDecides(es[i].req)
    ensures AllEarned(es, check, digest)
  {
    forall j | 0 <= j < |es| ensures EarnedAt(es, j, check, digest) {
      if es[j].Finish? && es[j].id in Run(es[..j], check, digest).pending {
        PendingWasAsked(es[..j], es[j].id, check, digest);
        var r := Run(es[..j], check, digest).pending[es[j].id].req;
        var i :| 0 <= i < j && es[..j][i].Consult? && es[..j][i].req == r;
        assert es[i].req == r;
      }
    }
  }

  ghost predicate Asked(es: seq<Event>, r: Request) {
    exists i :: 0 <= i < |es| && es[i].Consult? && es[i].req == r
  }

  lemma {:induction false} PendingWasAsked(es: seq<Event>, id: nat, check: Check, digest: Digest)
    requires id in Run(es, check, digest).pending
    ensures Asked(es, Run(es, check, digest).pending[id].req)
  {
    var n := |es| - 1;
    var init := es[..n];
    if id in Run(init, check, digest).pending {
      PendingWasAsked(init, id, check, digest);
      var r := Run(init, check, digest).pending[id].req;
      var i :| 0 <= i < |init| && init[i].Consult? && init[i].req == r;
      assert es[i].Consult? && es[i].req == r;
    } else {
      assert es[n].Consult? && es[n].id == id;
    }
  }

  lemma VouchedMore(es: seq<Event>, e: Event, k: AuthKey, expiry: int, check: Check, digest: Digest)
    requires Vouched(es, k, expiry, check, digest)
    ensures Vouched(es + [e], k, expiry, check, digest)
  {
    var j: nat :| Vouches(es, j, k, expiry, check, digest);
    assert (es + [e])[..j] == es[..j] && (es + [e])[j] == es[j];
    assert Vouches(es + [e], j, k, expiry, check, digest);
  }

  lemma GrantNeedsPassword(p: Pending, check: Check)
    requires Remembers(p, check) && PasswordDecides(p.req)
    ensures PasswordOk(p.req, check)
  {
    DecidesExactly(p.req.list, p.req.client, Credentials(p.req.user, p.req.password, p.req.present, p.hit), check);
  }

  /** Whatever is in the cache after an event was there before or is what the event left. */
  lemma NextMembers(s: System, e: Event, check: Check, digest: Digest, k: AuthKey)
    requires k in Next(s, e, check, digest).entries
    ensures var v := Next(s, e, check, digest).entries[k];
            || (k in s.entries && v == s.entries[k])
            || (&& e.Finish? && e.id in s.pending && Remembers(s.pending[e.id], check)
                && k == KeyOf(s.pending[e.id].req, digest) && v == e.now + AUTH_TTL)
  {}

  lemma NewlyVouched(es: seq<Event>, e: Event, check: Check, digest: Digest)
    requires e.Finish? && e.id in Run(es, check, digest).pending
    requires Remembers(Run(es, check, digest).pending[e.id], check)
    requires PasswordDecides(Run(es, check, digest).pending[e.id].req)
    ensures Vouched(es + [e], KeyOf(Run(es, check, digest).pending[e.id].req, digest), e.now + AUTH_TTL, check, digest)
  {
    var p := Run(es, check, digest).pending[e.id];
    GrantNeedsPassword(p, check);
    assert (es + [e])[..|es|] == es;
    assert Vouches(es + [e], |es|, KeyOf(p.req, digest), e.now + AUTH_TTL, check, digest);
  }

  lemma TrustedStep(es: seq<Event>, e: Event, check: Check, digest: Digest)
    requires Trusted(es, check, digest) && EarnedAt(es + [e], |es|, check, digest)
    ensures Trusted(es + [e], check, digest)
  {
    assert (es + [e])[..|es|] == es;
    var s := Run(es, check, digest);
    var m := Next(s, e, check, digest).entries;
    forall k | k in m ensures Vouched(es + [e], k, m[k], check, digest) {
      NextMembers(s, e, check, digest, k);
      if k in s.entries && m[k] == s.entries[k] {
        VouchedMore(es, e, k, m[k], check, digest);
      } else {
        NewlyVouched(es, e, check, digest);
      }
    }
  }

  lemma SplitLast(es: seq<Event>)
    requires es != []
    ensures es == es[..|es| - 1] + [es[|es| - 1]]
  {}

  lemma {:induction false} RunTrusted(es: seq<Event>, check: Check, digest: Digest)
    requires AllEarned(es, check, digest)
    ensures Trusted(es, check, digest)
  {
    if es != [] {
      SplitLast(es);
      EarnedPrefix(es, check, digest);
      assert EarnedAt(es, |es| - 1, check, digest);
      RunTrusted(es[..|es| - 1], check, digest);
      TrustedStep(es[..|es| - 1], es[|es| - 1], check, digest);
    }
  }

  // ----- what a hit means -----

  /** A hit means that the same user and password were checked, for the same users, by a request that
      finished at most thirty seconds before. */
  lemma HitWasEarned(es: seq<Event>, r: Request, now: int, check: Check, digest: Digest) returns (j: nat)
    requires Injective(digest) && AllEarned(es, check, digest) && EditsChangeVersion(es + [Consult(0, r, now)])
    requires Hits(Run(es, check, digest).entries, r, digest, now)
    ensures PasswordOk(r, check)
    ensures j < |es| && es[j].Finish? && now <= es[j].now + 30
    ensures es[j].id in Run(es[..j], check, digest).pending
    ensures var q := Run(es[..j], check, digest).pending[es[j].id];
            && !q.hit && q.req.user == r.user && q.req.password == r.password && q.req.list.users == r.list.users
            && PasswordOk(q.req, check)
  {
    RunTrusted(es, check, digest);
    var k := KeyOf(r, digest);
    var m := Run(es, check, digest).entries;
    assert Vouched(es, k, m[k], check, digest);
    j :| Vouches(es, j, k, m[k], check, digest);
    var q := Run(es[..j], check, digest).pending[es[j].id];
    PendingWasAsked(es[..j], es[j].id, check, digest);
    var i :| 0 <= i < j && es[..j][i].Consult? && es[..j][i].req == q.req;
    var all := es + [Consult(0, r, now)];
    assert all[i] == es[i] && all[|es|].req == r;
    assert SameVersionSameUsers(all[i].req.list, all[|es|].req.list);
  }

  ghost predicate Sound(p: Pending, check: Check) { p.hit ==> PasswordOk(p.req, check) }

  lemma EditsPrefix(es: seq<Event>, r: Request, id: nat, now: int)
    requires es != [] && EditsChangeVersion(es) && es[|es| - 1] == Consult(id, r, now)
    ensures EditsChangeVersion(es[..|es| - 1] + [Consult(0, r, now)])
  {
    var all := es[..|es| - 1] + [Consult(0, r, now)];
    forall i, j | 0 <= i < |all| && 0 <= j < |all| && all[i].Consult? && all[j].Consult?
      ensures SameVersionSameUsers(all[i].req.list, all[j].req.list)
    {
      assert es[i].Consult? && es[j].Consult? && es[i].req == all[i].req && es[j].req == all[j].req;
    }
  }

  lemma {:induction false} PendingIsSound(es: seq<Event>, id: nat, check: Check, digest: Digest)
    requires Injective(digest) && EditsChangeVersion(es) && AllEarned(es, check, digest)
    requires id in Run(es, check, digest).pending
    ensures Sound(Run(es, check, digest).pending[id], check)
  {
    var init, e := es[..|es| - 1], es[|es| - 1];
    var s := Run(init, check, digest);
    EarnedPrefix(es, check, digest);
    if id in s.pending {
      PendingIsSound(init, id, check, digest);
    } else {
      assert e.Consult? && e.id == id;
      if Hits(s.entries, e.req, digest, e.now) {
        EditsPrefix(es, e.req, id, e.now);
        var j := HitWasEarned(init, e.req, e.now, check, digest);
      }
    }
  }

  /** In every interleaving of requests and edits, each request is decided with the cache exactly as
      without it, as long as none that was remembered had been admitted by its address alone. */
  lemma CachedIsUncached(es: seq<Event>, id: nat, check: Check, digest: Digest)
    requires Injective(digest) && EditsChangeVersion(es) && AllEarned(es, check, digest)
    requires id in Run(es, check, digest).pending
    ensures var p := Run(es, check, digest).pending[id]; Decide(p, check) == Uncached(p.req, check)
  {
    PendingIsSound(es, id, check, digest);
    var r := Run(es, check, digest).pending[id].req;
    PasswordIsFirst(r.list.users, r.user, r.password, check);
  }

  /** So in every such interleaving a request is let in exactly when its address passes or, under
      satisfy any, the first user of its name has its password; under satisfy all both are needed,
      the latter where the list has users. No hit tells in it. */
  lemma LetInExactly(es: seq<Event>, id: nat, check: Check, digest: Digest)
    requires Injective(digest) && EditsChangeVersion(es) && AllEarned(es, check, digest)
    requires id in Run(es, check, digest).pending
    ensures var p := Run(es, check, digest).pending[id];
            var l := p.req.list;
            var addressOk, proven := AddressOk(multiset(l.rules), p.req.client), p.req.present && PasswordOk(p.req, check);
            && (Decide(p, check).Granted? <==>
                  if l.satisfyAny then addressOk || (l.users != [] && proven) else addressOk && (l.users == [] || proven))
            && (Decide(p, check).Refused? <==> !addressOk && (!l.satisfyAny || l.users == []))
  {
    var p := Run(es, check, digest).pending[id];
    CachedIsUncached(es, id, check, digest);
    DecidesExactly(p.req.list, p.req.client, Credentials(p.req.user, p.req.password, p.req.present, false), check);
  }

  /** Under a satisfy-all list no interleaving lets in an address that its rules do not pass, with a hit
      or without, whatever else went on. */
  lemma DeniedAddressIsRefused(es: seq<Event>, id: nat, check: Check, digest: Digest)
    requires id in Run(es, check, digest).pending
    requires var r := Run(es, check, digest).pending[id].req; !r.list.satisfyAny && !AddressOk(multiset(r.list.rules), r.client)
    ensures Decide(Run(es, check, digest).pending[id], check).Refused?
  {
    var p := Run(es, check, digest).pending[id];
    DecidesExactly(p.req.list, p.req.client, Credentials(p.req.user, p.req.password, p.req.present, p.hit), check);
  }

  /** In particular for satisfy-all lists. */
  lemma SatisfyAllAgrees(es: seq<Event>, id: nat, check: Check, digest: Digest)
    requires Injective(digest) && EditsChangeVersion(es)
    requires forall i :: 0 <= i < |es| && es[i].Consult? ==> !es[i].req.list.satisfyAny
    requires id in Run(es, check, digest).pending
    ensures var p := Run(es, check, digest).pending[id]; Decide(p, check) == Uncached(p.req, check)
  {
    EarnedIfAsked(es, check, digest);
    CachedIsUncached(es, id, check, digest);
  }

  // ----- exactly which lists are safe to cache -----

  /** The list admits by address alone some requests and leaves others to their password. */
  ghost predicate Mixed(l: AccessList) {
    && l.satisfyAny && l.users != []
    && (exists a :: AddressOk(multiset(l.rules), a)) && (exists a :: !AddressOk(multiset(l.rules), a))
  }

  ghost predicate AllOn(es: seq<Event>, l: AccessList) {
    forall i :: 0 <= i < |es| && es[i].Consult? ==> es[i].req.list == l
  }

  ghost predicate Agrees(es: seq<Event>, id: nat, check: Check, digest: Digest)
    requires id in Run(es, check, digest).pending
  {
    var p := Run(es, check, digest).pending[id]; Decide(p, check) == Uncached(p.req, check)
  }

  /** Under this list the cache never changes a decision, however requests interleave. */
  ghost predicate AlwaysAgrees(l: AccessList, check: Check, digest: Digest) {
    forall es, id :: AllOn(es, l) && id in Run(es, check, digest).pending ==> Agrees(es, id, check, digest)
  }

  lemma UnmixedAgrees(l: AccessList, es: seq<Event>, id: nat, check: Check, digest: Digest)
    requires Injective(digest) && !Mixed(l) && AllOn(es, l) && id in Run(es, check, digest).pending
    ensures Agrees(es, id, check, digest)
  {
    var r := Run(es, check, digest).pending[id].req;
    PendingWasAsked(es, id, check, digest);
    if !(l.satisfyAny && l.users != [] && AddressOk(multiset(l.rules), r.client)) {
      forall i | 0 <= i < |es| && es[i].Consult? ensures PasswordDecides(es[i].req) {
        assert es[i].req.list == l;
      }
      EarnedIfAsked(es, check, digest);
      CachedIsUncached(es, id, check, digest);
    }
  }

  /** A name no user of the list has. */
  lemma {:induction false} FreshName(users: seq<User>) returns (name: string)
    ensures forall i :: 0 <= i < |users| ==> |users[i].name| < |name|
  {
    name := "x";
    if users != [] {
      var other := FreshName(users[1..]);
      name := other + users[0].name + "x";
      forall i | 0 <= i < |users| ensures |users[i].name| < |name| {
        if i > 0 { assert users[1..][i - 1] == users[i]; }
      }
    }
  }

  lemma {:induction false} UnknownIsRefused(users: seq<User>, name: string, password: string, check: Check)
    requires forall i :: 0 <= i < |users| ==> |users[i].name| < |name|
    ensures !FirstUser(users, name, password, check)
  {
    if users != [] { UnknownIsRefused(users[1..], name, password, check); }
  }

  /** An unknown user from an admitted address is remembered, and then let in from a refused one. */
  lemma MixedDisagrees(l: AccessList, check: Check, digest: Digest)
    requires Mixed(l)
    ensures !AlwaysAgrees(l, check, digest)
  {
    var good :| AddressOk(multiset(l.rules), good);
    var bad :| !AddressOk(multiset(l.rules), bad);
    var name := FreshName(l.users);
    UnknownIsRefused(l.users, name, "", check);
    var first, second := Request(l, good, name, "", true), Request(l, bad, name, "", true);
    var es := [Consult(0, first, 0), Finish(0, 0), Consult(1, second, 0)];
    assert es[..2] == [Consult(0, first, 0), Finish(0, 0)];
    OneRemembered(first, check, digest);
    var p := Run(es, check, digest).pending[1];
    assert p == Pending(second, true);
    assert Decide(p, check) == Granted && Uncached(second, check) == NeedsCredentials;
    assert !Agrees(es, 1, check, digest);
  }

  lemma OneRemembered(r: Request, check: Check, digest: Digest)
    requires Remembers(Pending(r, false), check)
    ensures Run([Consult(0, r, 0), Finish(0, 0)], check, digest) == System(map[KeyOf(r, digest) := AUTH_TTL], map[])
  {
    var es := [Consult(0, r, 0), Finish(0, 0)];
    assert es[..1] == [Consult(0, r, 0)] && es[..1][..0] == [];
    assert Run(es[..1], check, digest) == System(map[], map[0 := Pending(r, false)]);
    assert map[0 := Pending(r, false)] - {0} == map[];
  }

  /** The cached decision is the uncached one in every run exactly for lists that are not mixed. */
  lemma AgreesExactly(l: AccessList, check: Check, digest: Digest)
    requires Injective(digest)
    ensures AlwaysAgrees(l, check, digest) <==> !Mixed(l)
  {
    if Mixed(l) {
      MixedDisagrees(l, check, digest);
    } else {
      forall es, id | AllOn(es, l) && id in Run(es, check, digest).pending ensures Agrees(es, id, check, digest) {
        UnmixedAgrees(l, es, id, check, digest);
      }
    }
  }
}

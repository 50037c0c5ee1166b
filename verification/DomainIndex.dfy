/** Resolving a host name through two maps, exact names and wildcard parents, and the linear
    scan with MatchesDomain it stands for. Hosts, redirects and certificates share it.
 */
module DomainIndex {
  import opened Basics

  /** enabled is what lets an entry in: an enabled host or redirect, a certificate that parses. */
  datatype Entry = Entry(domains: seq<string>, enabled: bool)

  predicate IsWildcard(d: string) { |d| >= 2 && d[0] == '*' && d[1] == '.' }

  /** Position of the first dot, or the length. */
  function FirstDot(s: string): (i: nat)
    ensures i <= |s|
    ensures i < |s| ==> s[i] == '.'
    ensures forall j :: 0 <= j < i ==> s[j] != '.'
  {
    if s == [] then 0 else if s[0] == '.' then 0 else 1 + FirstDot(s[1..])
  }

  /** What follows the first label, if there is a dot at all. */
  function Parent(s: string): Option<string> {
    var i := FirstDot(s);
    if i < |s| then Some(s[i + 1..]) else None
  }

  // ----- names as they arrive -----

  function LowerChar(c: char): char { if 'A' <= c <= 'Z' then c - 'A' + 'a' else c }

  function Lower(s: string): (r: string)
    ensures |r| == |s| && forall i :: 0 <= i < |s| ==> r[i] == LowerChar(s[i])
  {
    seq(|s|, i requires 0 <= i < |s| => LowerChar(s[i]))
  }

  predicate EndsInDot(s: string) { s != [] && s[|s| - 1] == '.' }

  function TrimDot(s: string): string { if EndsInDot(s) then s[..|s| - 1] else s }

  function Normalized(s: string): string { Lower(TrimDot(s)) }

  /** Position of the first closing bracket, or the length. */
  function FirstClosing(s: string): (i: nat)
    ensures i <= |s| && (i < |s| ==> s[i] == ']')
  {
    if s == [] || s[0] == ']' then 0 else 1 + FirstClosing(s[1..])
  }

  /** How many digits s ends in. */
  function Digits(s: string): (n: nat)
    ensures n <= |s|
  {
    if s != [] && '0' <= s[|s| - 1] <= '9' then 1 + Digits(s[..|s| - 1]) else 0
  }

  /** A Host header without brackets or port. Digits after the last colon, one at least, are a
      port; a bracketed address ends at its bracket. */
  function WithoutPort(s: string): string {
    if s != [] && s[0] == '[' then
      var end := FirstClosing(s);
      if end < |s| then s[1..end] else s
    else
      var n := Digits(s);
      if 0 < n < |s| && s[|s| - n - 1] == ':' then s[..|s| - n - 1] else s
  }

  /** What a Host header names, before case and trailing dot are dropped. */
  function HeaderName(h: string): string { WithoutPort(TrimSpace(h)) }

  // ----- the linear scan -----

  ghost predicate DomainCovers(d: string, name: string) {
    d == name || (IsWildcard(d) && Parent(name) == Some(d[2..]))
  }

  /** Entry e answers for the raw name h, as the scan decides it. */
  ghost predicate MatchesDomain(e: Entry, h: string) {
    exists i :: 0 <= i < |e.domains| && DomainCovers(e.domains[i], Normalized(h))
  }

  // ----- the index -----

  datatype Index = Index(exact: map<string, nat>, wildcard: map<string, nat>)

  ghost predicate HasExact(e: Entry, name: string) {
    e.enabled && !IsWildcard(name) && name in e.domains
  }

  ghost predicate HasWildcard(e: Entry, parent: string) {
    e.enabled && ("*." + parent) in e.domains
  }

  /** m maps each name to the last entry that has it. */
  ghost predicate ExactOf(m: map<string, nat>, entries: seq<Entry>) {
    && (forall x {:trigger m[x]} :: x in m ==> m[x] < |entries| && HasExact(entries[m[x]], x))
    && (forall x, i :: 0 <= i < |entries| && HasExact(entries[i], x) ==> x in m && i <= m[x])
  }

  ghost predicate WildcardOf(m: map<string, nat>, entries: seq<Entry>) {
    && (forall x {:trigger m[x]} :: x in m ==> m[x] < |entries| && HasWildcard(entries[m[x]], x))
    && (forall x, i :: 0 <= i < |entries| && HasWildcard(entries[i], x) ==> x in m && i <= m[x])
  }

  ghost predicate Indexes(t: Index, entries: seq<Entry>) {
    ExactOf(t.exact, entries) && WildcardOf(t.wildcard, entries)
  }

  /** The entries before n and the first i domains of entry n. */
  ghost function Filed(entries: seq<Entry>, n: nat, i: nat): seq<Entry>
    requires n < |entries| && i <= |entries[n].domains|
  {
    entries[..n] + [Entry(entries[n].domains[..i], entries[n].enabled)]
  }

  function AddDomain(t: Index, d: string, n: nat): Index {
    if IsWildcard(d) then t.(wildcard := t.wildcard[d[2..] := n]) else t.(exact := t.exact[d := n])
  }

  lemma FiledExact(t: Index, entries: seq<Entry>, n: nat, i: nat)
    requires n < |entries| && i < |entries[n].domains| && entries[n].enabled
    requires ExactOf(t.exact, Filed(entries, n, i))
    ensures ExactOf(AddDomain(t, entries[n].domains[i], n).exact, Filed(entries, n, i + 1))
  {
    var a, b, d := Filed(entries, n, i), Filed(entries, n, i + 1), entries[n].domains[i];
    assert entries[n].domains[..i + 1] == entries[n].domains[..i] + [d];
    forall k, x | 0 <= k <= n
      ensures HasExact(b[k], x) <==> HasExact(a[k], x) || (k == n && x == d && !IsWildcard(d))
    {
    }
  }

  lemma FiledWildcard(t: Index, entries: seq<Entry>, n: nat, i: nat)
    requires n < |entries| && i < |entries[n].domains| && entries[n].enabled
    requires WildcardOf(t.wildcard, Filed(entries, n, i))
    ensures WildcardOf(AddDomain(t, entries[n].domains[i], n).wildcard, Filed(entries, n, i + 1))
  {
    var a, b, d := Filed(entries, n, i), Filed(entries, n, i + 1), entries[n].domains[i];
    assert entries[n].domains[..i + 1] == entries[n].domains[..i] + [d];
    forall k, x: string | 0 <= k <= n
      ensures HasWildcard(b[k], x) <==> HasWildcard(a[k], x) || (k == n && IsWildcard(d) && x == d[2..])
    {
      if IsWildcard(d) { assert d == "*." + d[2..]; }
      if d == "*." + x { assert d[2..] == x; }
    }
  }

  lemma FiledNothing(t: Index, entries: seq<Entry>, n: nat, i: nat)
    requires n < |entries| && i <= |entries[n].domains| && (i == 0 || !entries[n].enabled)
    requires Indexes(t, entries[..n])
    ensures Indexes(t, Filed(entries, n, i))
  {
    var a, b := entries[..n], Filed(entries, n, i);
    assert forall k :: 0 <= k < n ==> b[k] == a[k];
    assert forall x :: !HasExact(b[n], x) && !HasWildcard(b[n], x);
  }

  /** Files the domains of entry n under it, last writer winning. */
  method File(t: Index, entries: seq<Entry>, n: nat) returns (r: Index)
    requires n < |entries| && Indexes(t, entries[..n])
    ensures Indexes(r, entries[..n + 1])
  {
    r := t;
    var e := entries[n];
    assert e.domains[..|e.domains|] == e.domains;
    assert entries[..n + 1] == Filed(entries, n, |e.domains|);
    if !e.enabled {
      FiledNothing(t, entries, n, |e.domains|);
      return;
    }
    FiledNothing(t, entries, n, 0);
    for i := 0 to |e.domains|
      invariant Indexes(r, Filed(entries, n, i))
    {
      FiledExact(r, entries, n, i);
      FiledWildcard(r, entries, n, i);
      r := AddDomain(r, e.domains[i], n);
    }
  }

  method Build(entries: seq<Entry>) returns (t: Index)
    ensures Indexes(t, entries)
  {
    t := Index(map[], map[]);
    for n := 0 to |entries|
      invariant Indexes(t, entries[..n])
    {
      t := File(t, entries, n);
    }
    assert entries[..|entries|] == entries;
  }

  function Lookup(t: Index, name: string): Option<nat> {
    if name == "" then None
    else if name in t.exact then Some(t.exact[name])
    else
      match Parent(name)
      case None => None
      case Some(p) => if p in t.wildcard then Some(t.wildcard[p]) else None
  }

  /** What the two maps know of entry e and the normalised name n. */
  ghost predicate Known(e: Entry, n: string) {
    HasExact(e, n) || (Parent(n).Some? && HasWildcard(e, Parent(n).value))
  }

  lemma ScanIsFiled(e: Entry, h: string)
    requires e.enabled
    ensures MatchesDomain(e, h) ==> Known(e, Normalized(h))
  {
    var name := Normalized(h);
    if MatchesDomain(e, h) {
      var i :| 0 <= i < |e.domains| && DomainCovers(e.domains[i], name);
      var d := e.domains[i];
      if d == name && IsWildcard(name) {
        assert FirstDot(name) == 1 && Parent(name) == Some(name[2..]);
        assert d == "*." + name[2..];
      } else if d != name {
        assert d == "*." + d[2..];
      }
    }
  }

  lemma FiledIsScan(e: Entry, h: string)
    requires Known(e, Normalized(h))
    ensures MatchesDomain(e, h)
  {
    var name := Normalized(h);
    if HasExact(e, name) {
      var i :| 0 <= i < |e.domains| && e.domains[i] == name;
      assert DomainCovers(e.domains[i], name);
    } else {
      var p := Parent(name).value;
      var i :| 0 <= i < |e.domains| && e.domains[i] == "*." + p;
      assert e.domains[i][2..] == p;
      assert DomainCovers(e.domains[i], name);
    }
  }

  /** The scan matches exactly an exact domain or a wildcard over the name's parent. */
  lemma ExactCovers(e: Entry, h: string)
    requires e.enabled
    ensures MatchesDomain(e, h) <==>
            || HasExact(e, Normalized(h))
            || (Parent(Normalized(h)).Some? && HasWildcard(e, Parent(Normalized(h)).value))
  {
    ScanIsFiled(e, h);
    if Known(e, Normalized(h)) { FiledIsScan(e, h); }
  }

  lemma LookupFiled(t: Index, entries: seq<Entry>, n: string)
    requires Indexes(t, entries) && n != ""
    ensures Lookup(t, n).None? ==> forall i :: 0 <= i < |entries| ==> !Known(entries[i], n)
    ensures Lookup(t, n).Some? ==> Lookup(t, n).value < |entries| && Known(entries[Lookup(t, n).value], n)
  {
    forall i | 0 <= i < |entries| && Lookup(t, n).None? ensures !Known(entries[i], n) {
      assert !HasExact(entries[i], n);
    }
  }

  lemma LookupPrefers(t: Index, entries: seq<Entry>, n: string, w: nat)
    requires Indexes(t, entries) && n != "" && Lookup(t, n) == Some(w) && w < |entries|
    ensures forall i :: 0 <= i < |entries| && HasExact(entries[i], n) ==> HasExact(entries[w], n) && i <= w
    ensures !HasExact(entries[w], n) ==> forall i :: w < i < |entries| ==> !Known(entries[i], n)
  {
    if n !in t.exact {
      forall i | 0 <= i < |entries| ensures !HasExact(entries[i], n) {}
      forall i | w < i < |entries| ensures !Known(entries[i], n) {}
    }
  }

  ghost predicate ScanFinds(entries: seq<Entry>, h: string) {
    exists i :: 0 <= i < |entries| && entries[i].enabled && MatchesDomain(entries[i], h)
  }

  /** For every raw name, the lookup finds something exactly when the scan would (an empty name
      never), what it finds matches, an exact entry beats a wildcard one, and among equals the
      last entry wins. */
  lemma LookupIsScan(t: Index, entries: seq<Entry>, h: string)
    requires Indexes(t, entries)
    ensures Lookup(t, Normalized(h)).Some? <==> Normalized(h) != "" && ScanFinds(entries, h)
    ensures Lookup(t, Normalized(h)).Some? ==>
              var w := Lookup(t, Normalized(h)).value;
              && w < |entries| && entries[w].enabled && MatchesDomain(entries[w], h)
              && (forall i :: 0 <= i < |entries| && HasExact(entries[i], Normalized(h)) ==> HasExact(entries[w], Normalized(h)) && i <= w)
              && (!HasExact(entries[w], Normalized(h)) ==>
                    forall i :: w < i < |entries| && entries[i].enabled ==> !MatchesDomain(entries[i], h))
  {
    var n := Normalized(h);
    if n != "" {
      LookupFiled(t, entries, n);
      if Lookup(t, n).Some? {
        var w := Lookup(t, n).value;
        LookupPrefers(t, entries, n, w);
        FiledIsScan(entries[w], h);
        forall i | w < i < |entries| && entries[i].enabled && !HasExact(entries[w], n) ensures !MatchesDomain(entries[i], h) {
          ScanIsFiled(entries[i], h);
        }
      } else {
        forall i | 0 <= i < |entries| && entries[i].enabled ensures !MatchesDomain(entries[i], h) {
          ScanIsFiled(entries[i], h);
        }
      }
    }
  }

  // ----- spaces, brackets and ports, which only the lookups strip -----

  /** Looking up `name` and scanning for the raw name h find something in the same tables. */
  ghost predicate SameTables(name: string, h: string) {
    forall t, entries :: Indexes(t, entries) ==> (Lookup(t, name).Some? <==> ScanFinds(entries, h))
  }

  ghost function Only(d: string): Entry { Entry([d], true) }

  /** The index of a table whose one entry has the one domain d. */
  ghost function OnlyIndex(d: string): Index { AddDomain(Index(map[], map[]), d, 0) }

  lemma OnlyIndexes(d: string)
    ensures Indexes(OnlyIndex(d), [Only(d)])
  {
    var e := [Only(d)][0];
    assert e.domains == [d] && e.domains[0] == d;
    OnlyHas(d);
  }

  lemma OnlyHas(d: string)
    ensures forall x :: HasExact(Only(d), x) <==> x == d && !IsWildcard(d)
    ensures forall x :: HasWildcard(Only(d), x) <==> IsWildcard(d) && x == d[2..]
  {
    var e := Only(d);
    assert e.domains[0] == d;
    forall x ensures HasWildcard(e, x) <==> IsWildcard(d) && x == d[2..] {
      if IsWildcard(d) { assert d == "*." + d[2..]; }
      if d == "*." + x { assert d[2..] == x; }
    }
  }

  lemma OnlyScans(d: string, h: string)
    ensures ScanFinds([Only(d)], h) <==> DomainCovers(d, Normalized(h))
  {
    assert [Only(d)][0] == Only(d);
    assert Only(d).domains[0] == d;
    if DomainCovers(d, Normalized(h)) { assert MatchesDomain([Only(d)][0], h); }
  }

  lemma OwnWildcard(n: string)
    requires IsWildcard(n)
    ensures Parent(n) == Some(n[2..])
  {
    assert FirstDot(n) == 1;
  }

  lemma WildcardsDiffer(a: string, b: string)
    requires IsWildcard(a) && IsWildcard(b) && a != b
    ensures Parent(a) == Some(a[2..]) && Parent(a) != Some(b[2..]) && Parent(b) != Some(a[2..])
  {
    OwnWildcard(a);
    OwnWildcard(b);
    assert a == "*." + a[2..] && b == "*." + b[2..];
  }

  lemma OnlyLooksUp(d: string, a: string)
    ensures Lookup(OnlyIndex(d), a).Some? <==> a != "" && DomainCovers(d, a)
  {
    if IsWildcard(d) && a == d { OwnWildcard(d); }
  }

  /** The one domain that tells two names apart. */
  lemma TellApart(a: string, b: string) returns (d: string)
    requires a != b || a == ""
    ensures DomainCovers(d, b) <==> !(a != "" && DomainCovers(d, a))
  {
    if a == "" || DomainCovers(a, b) {
      d := b;
      if IsWildcard(a) && IsWildcard(b) && a != b { WildcardsDiffer(a, b); }
    } else {
      d := a;
    }
  }

  lemma SameTablesExactly(name: string, h: string)
    ensures SameTables(name, h) <==> name == Normalized(h) && name != ""
  {
    if name == Normalized(h) && name != "" {
      forall t, entries | Indexes(t, entries) ensures Lookup(t, name).Some? <==> ScanFinds(entries, h) {
        LookupIsScan(t, entries, h);
      }
    } else {
      var d := TellApart(name, Normalized(h));
      OnlyIndexes(d);
      OnlyScans(d, h);
      OnlyLooksUp(d, name);
    }
  }

  lemma ShorterNames(a: string, h: string)
    requires a == h || |a| + 2 <= |h| || (|a| < |h| && (EndsInDot(h) ==> EndsInDot(a)))
    ensures Normalized(a) == Normalized(h) <==> a == h
  {}

  /** The certificate lookup also strips surrounding space. It agrees with the scan for the raw
      server name in every table exactly when there is none to strip and a name is left. */
  lemma CertificateLookupExactly(h: string)
    ensures SameTables(Normalized(TrimSpace(h)), h) <==> !Spaced(h) && h != "" && h != "."
  {
    SameTablesExactly(Normalized(TrimSpace(h)), h);
    ShorterNames(TrimSpace(h), h);
    assert Normalized(h) == "" <==> h == "" || h == ".";
  }

  /** The host lookup also strips brackets and port. */
  lemma HeaderLookupExactly(h: string)
    ensures SameTables(Normalized(HeaderName(h)), h) <==> HeaderName(h) == h && h != "" && h != "."
  {
    SameTablesExactly(Normalized(HeaderName(h)), h);
    ShorterNames(HeaderName(h), h);
    assert Normalized(h) == "" <==> h == "" || h == ".";
  }

  // ----- what a header names -----

  ghost predicate AllSpace(s: string) { forall i :: 0 <= i < |s| ==> IsSpace(s[i]) }

  ghost predicate AllDigits(s: string) { forall i :: 0 <= i < |s| ==> '0' <= s[i] <= '9' }

  lemma {:induction false} TrimBack(x: string, b: string)
    requires AllSpace(b) && x != [] && !Spaced(x)
    ensures TrimSpace(x + b) == x
  {
    if b == [] {
      assert x + b == x;
    } else {
      TrimBack(x, b[..|b| - 1]);
      assert (x + b)[..|x + b| - 1] == x + b[..|b| - 1];
      assert (x + b)[|x + b| - 1] == b[|b| - 1] && (x + b)[0] == x[0];
    }
  }

  /** Surrounding space goes, and nothing else. */
  lemma {:induction false} TrimSpaceIs(a: string, x: string, b: string)
    requires AllSpace(a) && AllSpace(b) && x != [] && !Spaced(x)
    ensures TrimSpace(a + x + b) == x
  {
    if a == [] {
      TrimBack(x, b);
      assert a + x + b == x + b;
    } else {
      TrimSpaceIs(a[1..], x, b);
      assert (a + x + b)[1..] == a[1..] + x + b && (a + x + b)[0] == a[0];
    }
  }

  lemma {:induction false} CountDigits(x: string, d: string)
    requires AllDigits(d) && (x != [] ==> !('0' <= x[|x| - 1] <= '9'))
    ensures Digits(x + d) == |d|
  {
    if d == [] {
      assert x + d == x;
    } else {
      CountDigits(x, d[..|d| - 1]);
      assert (x + d)[..|x + d| - 1] == x + d[..|d| - 1] && (x + d)[|x + d| - 1] == d[|d| - 1];
    }
  }

  /** A bare name: what a Host header names when nothing is around it. */
  ghost predicate Bare(name: string) {
    name != [] && !Spaced(name) && name[0] != '[' && ':' !in name
  }

  lemma BareStays(name: string)
    requires Bare(name)
    ensures WithoutPort(name) == name
  {}

  lemma PortGoes(name: string, d: string)
    requires Bare(name) && d != [] && AllDigits(d)
    ensures WithoutPort(name + ":" + d) == name && !Spaced(name + ":" + d)
  {
    var s := name + ":" + d;
    assert s == (name + ":") + d;
    CountDigits(name + ":", d);
    assert s[|s| - |d| - 1] == ':' && s[..|s| - |d| - 1] == name;
    assert s[0] == name[0] && s[|s| - 1] == d[|d| - 1];
  }

  /** A name, with or without a port, with or without space around it, names itself. */
  lemma HeaderNames(a: string, name: string, d: string, b: string)
    requires AllSpace(a) && AllSpace(b) && Bare(name) && d != [] && AllDigits(d)
    ensures HeaderName(a + name + b) == name
    ensures HeaderName(a + (name + ":" + d) + b) == name
  {
    TrimSpaceIs(a, name, b);
    BareStays(name);
    PortGoes(name, d);
    TrimSpaceIs(a, name + ":" + d, b);
  }

  lemma {:induction false} DigitsAreDigits(s: string)
    ensures AllDigits(s[|s| - Digits(s)..])
  {
    if Digits(s) > 0 {
      DigitsAreDigits(s[..|s| - 1]);
      var d := s[|s| - Digits(s)..];
      assert d == s[..|s| - 1][|s| - Digits(s)..] + [s[|s| - 1]];
    }
  }

  /** Nothing but a colon with digits after it is taken for a port. */
  lemma OnlyPortsGo(s: string) returns (d: string)
    requires s != [] && s[0] != '[' && WithoutPort(s) != s
    ensures s == WithoutPort(s) + ":" + d && d != [] && AllDigits(d)
  {
    var n := Digits(s);
    d := s[|s| - n..];
    DigitsAreDigits(s);
    assert s == s[..|s| - n - 1] + [s[|s| - n - 1]] + d;
  }

  lemma {:induction false} NoClosing(s: string)
    requires ']' !in s
    ensures FirstClosing(s) == |s|
  {
    if s != [] {
      NoClosing(s[1..]);
      assert s[0] in s;
    }
  }

  /** A bracket that is not closed stays. */
  lemma UnclosedStays(s: string)
    requires s != [] && s[0] == '[' && ']' !in s
    ensures WithoutPort(s) == s
  {
    NoClosing(s);
  }

  lemma {:induction false} ClosingAt(a: string, rest: string)
    requires ']' !in a
    ensures FirstClosing(a + "]" + rest) == |a|
  {
    var s := a + "]" + rest;
    if a != [] {
      ClosingAt(a[1..], rest);
      assert s[1..] == a[1..] + "]" + rest && s[0] == a[0] && a[0] in a;
    }
  }

  /** A bracketed address, with or without a port, names the address. */
  lemma BracketsName(a: string, address: string, port: string, b: string)
    requires AllSpace(a) && AllSpace(b) && ']' !in address
    requires port == [] || (|port| > 1 && port[0] == ':' && AllDigits(port[1..]))
    ensures HeaderName(a + ("[" + address + "]" + port) + b) == address
  {
    var s := "[" + address + "]" + port;
    assert s[0] == '[' && s[|s| - 1] == (if port == [] then ']' else port[1..][|port| - 2]);
    TrimSpaceIs(a, s, b);
    BracketsGo(address, port);
  }

  lemma BracketsGo(address: string, rest: string)
    requires ']' !in address
    ensures WithoutPort("[" + address + "]" + rest) == address
  {
    var s := "[" + address + "]" + rest;
    ClosingAt("[" + address, rest);
    assert s[0] == '[' && s[1..|address| + 1] == address;
  }

  /** The same letter in either case, or the same character. */
  ghost predicate SameLetter(c: char, d: char) {
    || c == d
    || ('A' <= c <= 'Z' && d as int == c as int + 32)
    || ('A' <= d <= 'Z' && c as int == d as int + 32)
  }

  lemma CaseFolds(c: char, d: char)
    ensures LowerChar(c) == LowerChar(d) <==> SameLetter(c, d)
    ensures !('A' <= LowerChar(c) <= 'Z')
  {}

  ghost predicate SameButCase(a: string, b: string) {
    |a| == |b| && forall i :: 0 <= i < |a| ==> SameLetter(a[i], b[i])
  }

  lemma {:induction false} TrimCase(a: string, b: string)
    requires SameButCase(a, b)
    ensures SameButCase(TrimSpace(a), TrimSpace(b))
    decreases |a|
  {
    if Spaced(a) {
      assert IsSpace(a[0]) <==> IsSpace(b[0]);
      if IsSpace(a[0]) { TrimCase(a[1..], b[1..]); } else { TrimCase(a[..|a| - 1], b[..|b| - 1]); }
    } else if a != [] {
      assert SameLetter(a[0], b[0]) && SameLetter(a[|a| - 1], b[|a| - 1]);
    }
  }

  lemma {:induction false} DigitsCase(a: string, b: string)
    requires SameButCase(a, b)
    ensures Digits(a) == Digits(b)
  {
    if a != [] {
      assert SameLetter(a[|a| - 1], b[|a| - 1]);
      DigitsCase(a[..|a| - 1], b[..|b| - 1]);
    }
  }

  lemma {:induction false} ClosingCase(a: string, b: string)
    requires SameButCase(a, b)
    ensures FirstClosing(a) == FirstClosing(b)
  {
    if a != [] {
      assert SameLetter(a[0], b[0]);
      ClosingCase(a[1..], b[1..]);
    }
  }

  lemma PortCase(a: string, b: string)
    requires SameButCase(a, b)
    ensures SameButCase(WithoutPort(a), WithoutPort(b))
  {
    if a != [] {
      assert SameLetter(a[0], b[0]);
      if a[0] == '[' { ClosingCase(a, b); } else { ColonCase(a, b); }
    }
  }

  lemma ColonCase(a: string, b: string)
    requires SameButCase(a, b) && a != [] && a[0] != '[' && b[0] != '['
    ensures SameButCase(WithoutPort(a), WithoutPort(b))
  {
    DigitsCase(a, b);
    var n := Digits(a);
    if 0 < n < |a| { assert SameLetter(a[|a| - n - 1], b[|a| - n - 1]); }
  }

  lemma NormalizedCase(a: string, b: string)
    requires SameButCase(a, b)
    ensures Normalized(a) == Normalized(b)
  {
    if a != [] { assert SameLetter(a[|a| - 1], b[|a| - 1]); }
    forall i | 0 <= i < |TrimDot(a)| ensures Normalized(a)[i] == Normalized(b)[i] {
      assert SameLetter(a[i], b[i]);
    }
  }

  /** Two headers that differ only in case go the same way, whatever the tables. */
  lemma CaseDoesNotMatter(redirects: Index, hosts: Index, a: string, b: string)
    requires SameButCase(a, b)
    ensures Dispatch(redirects, hosts, Normalized(HeaderName(a))) == Dispatch(redirects, hosts, Normalized(HeaderName(b)))
  {
    TrimCase(a, b);
    PortCase(TrimSpace(a), TrimSpace(b));
    NormalizedCase(HeaderName(a), HeaderName(b));
  }

  lemma DotGoes(name: string)
    requires Bare(name) && !EndsInDot(name)
    ensures Bare(name + ".") && Normalized(name + ".") == Normalized(name)
  {
    var dotted := name + ".";
    assert dotted[0] == name[0] && TrimDot(dotted) == name;
  }

  lemma BareHeader(name: string, d: string)
    requires Bare(name) && d != [] && AllDigits(d)
    ensures HeaderName(name) == name && HeaderName(name + ":" + d) == name
  {
    BareStays(name);
    PortGoes(name, d);
  }

  /** So do a name and the same name with one dot after it, with a port or without. */
  lemma TrailingDotDoesNotMatter(redirects: Index, hosts: Index, name: string, d: string)
    requires Bare(name) && !EndsInDot(name) && d != [] && AllDigits(d)
    ensures Dispatch(redirects, hosts, Normalized(HeaderName(name + "."))) == Dispatch(redirects, hosts, Normalized(HeaderName(name)))
    ensures Dispatch(redirects, hosts, Normalized(HeaderName((name + ".") + ":" + d)))
         == Dispatch(redirects, hosts, Normalized(HeaderName(name + ":" + d)))
  {
    var dotted := name + ".";
    DotGoes(name);
    BareHeader(name, d);
    BareHeader(dotted, d);
  }

  /** A wildcard covers exactly one label in front of its parent. */
  lemma WildcardCoversOneLabel(p: string, head: string, name: string)
    requires '.' !in head && name == head + "." + p
    ensures DomainCovers("*." + p, name)
  {
    LabelEnds(head, p);
    assert name[|head| + 1..] == p && ("*." + p)[2..] == p;
  }

  lemma {:induction false} LabelEnds(head: string, p: string)
    requires '.' !in head
    ensures FirstDot(head + "." + p) == |head|
  {
    var s := head + "." + p;
    if head != [] {
      LabelEnds(head[1..], p);
      assert s[1..] == head[1..] + "." + p && s[0] == head[0] && head[0] in head;
    }
  }

  lemma WildcardCoversOnlyThat(p: string, name: string) returns (head: string)
    requires DomainCovers("*." + p, name)
    ensures '.' !in head && name == head + "." + p
  {
    head := name[..FirstDot(name)];
    if name == "*." + p { OwnWildcard(name); }
    assert ("*." + p)[2..] == p;
    assert name == head + [name[|head|]] + name[|head| + 1..];
  }

  // ----- redirects come before hosts -----

  datatype Target = Redirect(i: nat) | Host(i: nat) | NoTarget

  function Dispatch(redirects: Index, hosts: Index, name: string): Target {
    match Lookup(redirects, name)
    case Some(i) => Redirect(i)
    case None =>
      match Lookup(hosts, name)
      case Some(i) => Host(i)
      case None => NoTarget
  }

  /** A Host header with its own host reaches it exactly when it names something and no enabled
      redirect covers the name, be it only by wildcard: exact beats wildcard within a table, not
      across the two. */
  lemma HostReachedUnlessRedirected(redirects: Index, rs: seq<Entry>, hosts: Index, hs: seq<Entry>, header: string, i: nat)
    requires Indexes(redirects, rs) && Indexes(hosts, hs) && i < |hs|
    requires var n := Normalized(HeaderName(header));
             HasExact(hs[i], n) && forall j :: i < j < |hs| ==> !HasExact(hs[j], n)
    ensures Dispatch(redirects, hosts, Normalized(HeaderName(header))) == Host(i) <==>
            && Normalized(HeaderName(header)) != ""
            && forall r :: 0 <= r < |rs| && rs[r].enabled ==> !MatchesDomain(rs[r], HeaderName(header))
  {
    var h := HeaderName(header);
    LookupIsScan(redirects, rs, h);
    LookupIsScan(hosts, hs, h);
    ExactCovers(hs[i], h);
  }
}

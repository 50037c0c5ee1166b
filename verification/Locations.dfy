/** Path routing inside one host: locations sorted longest first, the first match taken, and
    its prefix stripped from what goes upstream.
 */
module Locations {
  import opened Basics

  datatype Location = Location(path: string, strip: bool)

  predicate HasPrefix(s: string, p: string) { |p| <= |s| && s[..|p|] == p }

  predicate Matches(l: Location, path: string) {
    l.path == "/" || (HasPrefix(path, l.path) && (|path| == |l.path| || path[|l.path|] == '/'))
  }

  function Forward(l: Location, path: string): string {
    if !l.strip || l.path == "/" then path
    else
      var stripped := if HasPrefix(path, l.path) then path[|l.path|..] else path;
      if stripped == "" then "/" else stripped
  }

  /** Starts with a slash and ends in none, unless it is the root. */
  predicate Canonical(p: string) {
    |p| >= 1 && p[0] == '/' && (|p| > 1 ==> p[|p| - 1] != '/')
  }

  /** The path with a leading slash put in front when it has none. */
  function Rooted(raw: string): string {
    if raw == "" then "/" else if raw[0] != '/' then "/" + raw else raw
  }

  /** Trailing slashes gone, unless nothing else is left. */
  function WithoutSlashes(p: string): (r: string)
    ensures |r| <= |p| && r == p[..|r|] && (p != [] ==> r != [])
    ensures |r| > 1 ==> r[|r| - 1] != '/'
    ensures forall i :: |r| <= i < |p| ==> p[i] == '/'
  {
    if |p| > 1 && p[|p| - 1] == '/' then WithoutSlashes(p[..|p| - 1]) else p
  }

  lemma NormalStays(raw: string)
    ensures WithoutSlashes(Rooted(TrimSpace(raw))) == raw <==> Canonical(raw) && !Spaced(raw)
  {
    var root := Rooted(TrimSpace(raw));
    assert root[0] == '/' && (TrimSpace(raw) != "" && TrimSpace(raw)[0] == '/' ==> root == TrimSpace(raw));
  }

  /** Only surrounding space and trailing slashes go, and all of them; nothing changes exactly when
      the path is canonical and has no space around it. */
  method Normalize(raw: string) returns (p: string)
    ensures Canonical(p) && HasPrefix(Rooted(TrimSpace(raw)), p)
    ensures p == "/" || (|p| > 1 && p[0] == '/' && p[|p| - 1] != '/')
    ensures forall i :: |p| <= i < |Rooted(TrimSpace(raw))| ==> Rooted(TrimSpace(raw))[i] == '/'
    ensures p == raw <==> Canonical(raw) && !Spaced(raw)
  {
    p := TrimSpace(raw);
    if p == "" { p := "/"; }
    if p[0] != '/' { p := "/" + p; }
    ghost var start := p;
    assert start == Rooted(TrimSpace(raw));
    while |p| > 1 && p[|p| - 1] == '/'
      invariant p != [] && WithoutSlashes(p) == WithoutSlashes(start)
      decreases |p|
    {
      p := p[..|p| - 1];
    }
    NormalStays(raw);
  }

  // ----- whole segments -----

  /** The segments of a path: what lies between slashes. */
  function Segments(s: string): (r: seq<string>)
    ensures |r| >= 1
  {
    if s == "" then [""]
    else
      var rest := Segments(s[1..]);
      if s[0] == '/' then [""] + rest else [[s[0]] + rest[0]] + rest[1..]
  }

  /** a is the beginning of b, segment by segment. */
  predicate SegmentPrefix(a: seq<string>, b: seq<string>) { |a| <= |b| && b[..|a|] == a }

  lemma SegmentsStep(s: string)
    requires s != ""
    ensures s[0] == '/' ==> Segments(s) == [""] + Segments(s[1..])
    ensures s[0] != '/' ==> Segments(s)[0] != "" && Segments(s)[0][0] == s[0]
                            && Segments(s)[0][1..] == Segments(s[1..])[0] && Segments(s)[1..] == Segments(s[1..])[1..]
  {}

  /** p followed by nothing or a slash is a prefix of s exactly when its segments are. */
  lemma {:induction false} PrefixIsSegmentPrefix(p: string, s: string)
    ensures HasPrefix(s, p) && (|s| == |p| || s[|p|] == '/') <==> SegmentPrefix(Segments(p), Segments(s))
  {
    if p == "" {
      if s != "" { SegmentsStep(s); }
    } else if s == "" {
      SegmentsStep(p);
      EmptyHasOneSegment(p);
    } else {
      SegmentsStep(p);
      SegmentsStep(s);
      PrefixIsSegmentPrefix(p[1..], s[1..]);
      PeelPrefix(p, s);
      PeelSegments(p, s);
    }
  }

  lemma EmptyHasOneSegment(p: string)
    requires p != ""
    ensures !SegmentPrefix(Segments(p), Segments(""))
  {
    SegmentsStep(p);
  }

  lemma PeelPrefix(p: string, s: string)
    requires p != "" && s != ""
    ensures HasPrefix(s, p) && (|s| == |p| || s[|p|] == '/') <==>
            p[0] == s[0] && HasPrefix(s[1..], p[1..]) && (|s[1..]| == |p[1..]| || s[1..][|p[1..]|] == '/')
  {
    if p[0] == s[0] && HasPrefix(s[1..], p[1..]) {
      assert s[..|p|] == [s[0]] + s[1..][..|p| - 1];
      assert p == [p[0]] + p[1..];
    }
    if HasPrefix(s, p) {
      assert s[1..][..|p| - 1] == s[..|p|][1..];
    }
  }

  /** Segment prefixes, head by head. */
  lemma PeelHeads(a: seq<string>, b: seq<string>)
    requires a != [] && b != []
    ensures SegmentPrefix(a, b) <==> a[0] == b[0] && SegmentPrefix(a[1..], b[1..])
  {
    if SegmentPrefix(a, b) {
      assert b[..|a|][0] == b[0] && b[1..][..|a| - 1] == b[..|a|][1..];
    }
    if a[0] == b[0] && SegmentPrefix(a[1..], b[1..]) {
      assert b[..|a|] == [b[0]] + b[1..][..|a| - 1] && a == [a[0]] + a[1..];
    }
  }

  lemma SameHeads(p: string, s: string)
    requires p != "" && s != "" && p[0] != '/' && s[0] != '/'
    ensures Segments(p)[0] == Segments(s)[0] <==> p[0] == s[0] && Segments(p[1..])[0] == Segments(s[1..])[0]
  {
    SegmentsStep(p);
    SegmentsStep(s);
    var a, b := Segments(p)[0], Segments(s)[0];
    assert a == [a[0]] + a[1..] && b == [b[0]] + b[1..];
  }

  lemma PeelSegments(p: string, s: string)
    requires p != "" && s != ""
    ensures SegmentPrefix(Segments(p), Segments(s)) <==>
            p[0] == s[0] && SegmentPrefix(Segments(p[1..]), Segments(s[1..]))
  {
    SegmentsStep(p);
    SegmentsStep(s);
    PeelHeads(Segments(p), Segments(s));
    if p[0] == '/' {
      assert Segments(p)[1..] == Segments(p[1..]);
      if s[0] == '/' { assert Segments(s)[1..] == Segments(s[1..]); }
    } else if s[0] != '/' {
      SameHeads(p, s);
      PeelHeads(Segments(p[1..]), Segments(s[1..]));
    }
  }

  /** The root matches every path, another location exactly the paths whose leading segments are its
      own. */
  lemma MatchesWholeSegments(l: Location, path: string)
    ensures Matches(l, path) <==> l.path == "/" || SegmentPrefix(Segments(l.path), Segments(path))
  {
    PrefixIsSegmentPrefix(l.path, path);
  }

  // ----- longest first, first match -----

  ghost predicate LongestFirst(ls: seq<Location>) {
    forall i, j :: 0 <= i < j < |ls| ==> |ls[i].path| >= |ls[j].path|
  }

  /** Puts l after every location at least as long, before the shorter ones. */
  function Insert(l: Location, ls: seq<Location>): seq<Location> {
    if ls == [] || |l.path| > |ls[0].path| then [l] + ls else [ls[0]] + Insert(l, ls[1..])
  }

  /** The stable sort by decreasing path length. */
  function Sorted(ls: seq<Location>): seq<Location> {
    if ls == [] then [] else Insert(ls[|ls| - 1], Sorted(ls[..|ls| - 1]))
  }

  lemma {:induction false} InsertContents(l: Location, ls: seq<Location>)
    ensures multiset(Insert(l, ls)) == multiset(ls) + multiset{l}
  {
    if !(ls == [] || |l.path| > |ls[0].path|) {
      InsertContents(l, ls[1..]);
      assert ls == [ls[0]] + ls[1..];
    }
  }

  lemma {:induction false} InsertOrders(l: Location, ls: seq<Location>)
    requires LongestFirst(ls)
    ensures LongestFirst(Insert(l, ls))
  {
    if !(ls == [] || |l.path| > |ls[0].path|) {
      InsertOrders(l, ls[1..]);
      InsertContents(l, ls[1..]);
      var r := Insert(l, ls[1..]);
      forall j | 0 <= j < |r| ensures |ls[0].path| >= |r[j].path| {
        assert r[j] in multiset(r);
        if r[j] != l { assert r[j] in multiset(ls[1..]); }
      }
    }
  }

  lemma {:induction false} SortedSorts(ls: seq<Location>)
    ensures LongestFirst(Sorted(ls)) && multiset(Sorted(ls)) == multiset(ls)
  {
    if ls != [] {
      var init := ls[..|ls| - 1];
      SortedSorts(init);
      InsertOrders(ls[|ls| - 1], Sorted(init));
      InsertContents(ls[|ls| - 1], Sorted(init));
      assert ls == init + [ls[|ls| - 1]];
    }
  }

  method Pick(ls: seq<Location>, path: string) returns (r: Option<Location>)
    ensures r.None? <==> forall i :: 0 <= i < |ls| ==> !Matches(ls[i], path)
    ensures r.Some? ==> exists i :: 0 <= i < |ls| && ls[i] == r.value && Matches(ls[i], path)
                                    && forall j :: 0 <= j < i ==> !Matches(ls[j], path)
  {
    for i := 0 to |ls|
      invariant forall j :: 0 <= j < i ==> !Matches(ls[j], path)
    {
      if Matches(ls[i], path) { return Some(ls[i]); }
    }
    return None;
  }

  /** Matching canonical paths of the same length are the same path. */
  lemma SameLengthSamePath(a: Location, b: Location, path: string)
    requires Canonical(a.path) && Canonical(b.path) && |a.path| == |b.path|
    requires Matches(a, path) && Matches(b, path)
    ensures a.path == b.path
  {}

  ghost predicate DistinctPaths(ls: seq<Location>) {
    forall i, j :: 0 <= i < j < |ls| ==> ls[i].path != ls[j].path
  }

  /** Whatever order the locations are configured in, sorting them and taking the first match
      gives the one with the longest matching path, strictly longer than every other match,
      and gives none exactly when none matches. */
  method Route(ls: seq<Location>, path: string) returns (r: Option<Location>)
    requires DistinctPaths(ls) && forall i :: 0 <= i < |ls| ==> Canonical(ls[i].path)
    ensures r.None? <==> forall l :: l in ls ==> !Matches(l, path)
    ensures r.Some? ==> r.value in ls && Matches(r.value, path)
    ensures r.Some? ==> forall l :: l in ls && Matches(l, path) && l != r.value ==> |l.path| < |r.value.path|
  {
    SortedSorts(ls);
    var s := Sorted(ls);
    MembersOfSorted(ls);
    r := Pick(s, path);
    if r.Some? {
      forall l | l in ls && Matches(l, path) && l != r.value ensures |l.path| < |r.value.path| {
        FirstIsLongest(s, path, r.value, l);
        LongestIsUnique(ls, path, r.value, l);
      }
    }
  }

  lemma MembersOfSorted(ls: seq<Location>)
    ensures forall l :: l in ls <==> l in Sorted(ls)
  {
    SortedSorts(ls);
    forall l ensures l in ls <==> l in Sorted(ls) {
      assert l in ls <==> l in multiset(ls);
      assert l in Sorted(ls) <==> l in multiset(Sorted(ls));
    }
  }

  lemma FirstIsLongest(s: seq<Location>, path: string, w: Location, l: Location)
    requires LongestFirst(s) && l in s && Matches(l, path)
    requires exists i :: 0 <= i < |s| && s[i] == w && Matches(s[i], path) && forall j :: 0 <= j < i ==> !Matches(s[j], path)
    ensures |l.path| <= |w.path|
  {
    var i :| 0 <= i < |s| && s[i] == w && Matches(s[i], path) && forall j :: 0 <= j < i ==> !Matches(s[j], path);
    var k :| 0 <= k < |s| && s[k] == l;
  }

  lemma LongestIsUnique(ls: seq<Location>, path: string, a: Location, b: Location)
    requires DistinctPaths(ls) && forall i :: 0 <= i < |ls| ==> Canonical(ls[i].path)
    requires a in ls && b in ls && a != b && Matches(a, path) && Matches(b, path)
    ensures |a.path| != |b.path|
  {
    var i :| 0 <= i < |ls| && ls[i] == a;
    var j :| 0 <= j < |ls| && ls[j] == b;
    if |a.path| == |b.path| { SameLengthSamePath(a, b, path); }
  }

  /** Without stripping, and from the root, the path goes out as it came. With it, what is forwarded
      is the path without the prefix; putting the prefix back rebuilds it, except that an empty
      remainder went out as "/". */
  lemma ForwardRebuilds(l: Location, path: string)
    requires Matches(l, path)
    ensures !l.strip || l.path == "/" ==> Forward(l, path) == path
    ensures l.strip && l.path != "/" ==>
              && Forward(l, path) != "" && Forward(l, path)[0] == '/'
              && l.path + Forward(l, path) == if path == l.path then path + "/" else path
  {}
}

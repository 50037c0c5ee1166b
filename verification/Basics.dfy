/** Small types shared by the models. */
module Basics {
  datatype Option<T> = None | Some(value: T)

  type Byte = b: int | 0 <= b < 256

  predicate IsSpace(c: char) {
    || c == ' ' || '\U{09}' <= c <= '\U{0D}' || c == '\U{85}' || c == '\U{A0}' || c == '\U{1680}'
    || '\U{2000}' <= c <= '\U{200A}' || c == '\U{2028}' || c == '\U{2029}' || c == '\U{202F}'
    || c == '\U{205F}' || c == '\U{3000}'
  }

  /** Has space around it. */
  predicate Spaced(s: string) { s != [] && (IsSpace(s[0]) || IsSpace(s[|s| - 1])) }

  function TrimSpace(s: string): (r: string)
    ensures |r| <= |s| && (r == s <==> !Spaced(s)) && (r == s <==> |r| == |s|)
    ensures !Spaced(r)
    ensures s != [] && !IsSpace(s[0]) ==> r != [] && r == s[..|r|]
    ensures s != [] && !IsSpace(s[|s| - 1]) ==> r != [] && r[|r| - 1] == s[|s| - 1]
  {
    if !Spaced(s) then s
    else if IsSpace(s[0]) then TrimSpace(s[1..])
    else TrimSpace(s[..|s| - 1])
  }

  function Bit(x: bool): int { if x then 1 else 0 }

  /** Two sets that agree but for one element differ in size by that element. */
  lemma OneDiffers<T>(was: set<T>, now: set<T>, x: T)
    requires was - {x} == now - {x}
    ensures |now| == |was| + Bit(x in now) - Bit(x in was)
  {
    var rest := was - {x};
    assert now == if x in now then rest + {x} else rest;
    assert was == if x in was then rest + {x} else rest;
  }

  function Max(a: int, b: int): (m: int)
    ensures m == a || m == b
    ensures m >= a && m >= b
  {
    if a > b then a else b
  }
}

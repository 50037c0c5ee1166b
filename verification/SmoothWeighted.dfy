/** Smooth weighted round robin over plain score vectors.

    A pool of n backends is a vector of weights `ws` and a vector of running scores `cs`;
    `on` marks the backends that are candidates for one selection. A selection raises every
    candidate's score by its weight, takes the earliest highest one, and charges the winner
    the candidates' total weight.
 */
module SmoothWeighted {

  /** Sum of v over the marked positions below k. */
  ghost function Sum(v: seq<int>, on: seq<bool>, k: nat): int
    requires k <= |v| == |on|
  {
    if k == 0 then 0 else Sum(v, on, k - 1) + (if on[k - 1] then v[k - 1] else 0)
  }

  ghost function Weight(ws: seq<int>, on: seq<bool>): int
    requires |ws| == |on|
  {
    Sum(ws, on, |ws|)
  }

  /** w is the earliest candidate whose raised score is highest. */
  ghost predicate Leads(ws: seq<int>, cs: seq<int>, on: seq<bool>, w: nat) {
    && |ws| == |cs| == |on| && w < |on| && on[w]
    && (forall i :: 0 <= i < |cs| && on[i] ==> cs[i] + ws[i] <= cs[w] + ws[w])
    && (forall i :: 0 <= i < w && on[i] ==> cs[i] + ws[i] < cs[w] + ws[w])
  }

  /** One selection: from scores cs, with candidates `on`, picking w and leaving scores cs'. */
  ghost predicate Selects(ws: seq<int>, cs: seq<int>, on: seq<bool>, w: nat, cs': seq<int>) {
    && Leads(ws, cs, on, w) && |cs'| == |cs|
    && forall i :: 0 <= i < |cs| ==>
         cs'[i] == cs[i] + (if on[i] then ws[i] else 0) - (if i == w then Weight(ws, on) else 0)
  }

  lemma SelectionIsUnique(ws: seq<int>, cs: seq<int>, on: seq<bool>, w: nat, a: seq<int>, x: nat, b: seq<int>)
    requires Selects(ws, cs, on, w, a) && Selects(ws, cs, on, x, b)
    ensures w == x && a == b
  {
    assert w == x by {
      assert cs[w] + ws[w] == cs[x] + ws[x];
    }
  }

  // ----- changing candidates: scores are conserved over the pool -----

  ghost predicate Covers(sup: seq<bool>, on: seq<bool>) {
    |sup| == |on| && forall i :: 0 <= i < |on| && on[i] ==> sup[i]
  }

  lemma {:induction false} SumAfter(ws: seq<int>, cs: seq<int>, on: seq<bool>, w: nat, cs': seq<int>, sup: seq<bool>, k: nat)
    requires Selects(ws, cs, on, w, cs') && Covers(sup, on) && k <= |cs|
    ensures Sum(cs', sup, k) == Sum(cs, sup, k) + Sum(ws, on, k) - (if w < k then Weight(ws, on) else 0)
  {
    if k > 0 {
      SumAfter(ws, cs, on, w, cs', sup, k - 1);
    }
  }

  /** A run in which selection k sees the candidates `masks[k]` and goes to `picks[k]`. */
  ghost predicate IsRun(ws: seq<int>, masks: seq<seq<bool>>, states: seq<seq<int>>, picks: seq<nat>) {
    && |states| == |picks| + 1 && |masks| == |picks|
    && forall k :: 0 <= k < |picks| ==> Selects(ws, states[k], masks[k], picks[k], states[k + 1])
  }

  /** However the candidates change, a set of backends holding all of them keeps its score sum. */
  lemma {:induction false} PoolScoresConserved(ws: seq<int>, masks: seq<seq<bool>>, states: seq<seq<int>>,
                                               picks: seq<nat>, pool: seq<bool>, t: nat)
    requires IsRun(ws, masks, states, picks) && t <= |picks| && |states[0]| == |pool|
    requires forall k :: 0 <= k < |masks| ==> Covers(pool, masks[k])
    ensures |states[t]| == |pool|
    ensures Weight(states[t], pool) == Weight(states[0], pool)
  {
    if t > 0 {
      PoolScoresConserved(ws, masks, states, picks, pool, t - 1);
      assert Covers(pool, masks[t - 1]);
      SumAfter(ws, states[t - 1], masks[t - 1], picks[t - 1], states[t], pool, |pool|);
    }
  }

  // ----- fixed candidates: the fairness theorem -----

  /** A run from a fresh pool whose candidates, all of positive weight, never change. */
  ghost predicate SteadyRun(ws: seq<int>, on: seq<bool>, states: seq<seq<int>>, picks: seq<nat>) {
    && |ws| == |on| && |states| == |picks| + 1 && |states[0]| == |on|
    && (exists i :: 0 <= i < |on| && on[i])
    && (forall i :: 0 <= i < |on| && on[i] ==> ws[i] > 0 && states[0][i] == 0)
    && forall k :: 0 <= k < |picks| ==> Selects(ws, states[k], on, picks[k], states[k + 1])
  }

  /** How many of the selections lo..hi went to backend i. */
  ghost function Served(picks: seq<nat>, lo: nat, hi: nat, i: nat): nat
    requires hi <= |picks|
  {
    if hi <= lo then 0 else Served(picks, lo, hi - 1, i) + (if picks[hi - 1] == i then 1 else 0)
  }

  lemma {:induction false} SumAbove(v: seq<int>, on: seq<bool>, k: nat, i: nat)
    requires k <= |v| == |on| && i < |v|
    requires forall j :: 0 <= j < |v| && on[j] ==> v[j] >= 0
    ensures Sum(v, on, k) >= (if i < k && on[i] then v[i] else 0)
  {
    if k > 0 {
      SumAbove(v, on, k - 1, i);
    }
  }

  lemma WeightPositive(ws: seq<int>, on: seq<bool>, i: nat)
    requires |ws| == |on| && i < |on| && on[i]
    requires forall j :: 0 <= j < |on| && on[j] ==> ws[j] > 0
    ensures Weight(ws, on) > 0
  {
    SumAbove(ws, on, |ws|, i);
  }

  lemma {:induction false} RaisedSum(ws: seq<int>, cs: seq<int>, on: seq<bool>, k: nat)
    requires k <= |ws| == |cs| == |on|
    requires forall i :: 0 <= i < |cs| && on[i] ==> cs[i] + ws[i] <= 0
    ensures Sum(cs, on, k) + Sum(ws, on, k) <= 0
  {
    if k > 0 {
      RaisedSum(ws, cs, on, k - 1);
    }
  }

  lemma {:induction false} ZeroSum(v: seq<int>, on: seq<bool>, k: nat)
    requires k <= |v| == |on|
    requires forall i :: 0 <= i < |v| && on[i] ==> v[i] == 0
    ensures Sum(v, on, k) == 0
  {
    if k > 0 {
      ZeroSum(v, on, k - 1);
    }
  }

  /** The winner's raised score is positive when the candidates' scores sum to zero. */
  lemma WinnerIsOwed(ws: seq<int>, cs: seq<int>, on: seq<bool>, w: nat)
    requires Leads(ws, cs, on, w) && Weight(cs, on) == 0 && Weight(ws, on) > 0
    ensures cs[w] + ws[w] > 0
  {
    if cs[w] + ws[w] <= 0 {
      RaisedSum(ws, cs, on, |cs|);
    }
  }

  /** In a steady run candidates' scores sum to zero and stay above minus the total weight. */
  lemma {:induction false} ScoresBounded(ws: seq<int>, on: seq<bool>, states: seq<seq<int>>, picks: seq<nat>, t: nat)
    requires SteadyRun(ws, on, states, picks) && t <= |picks|
    ensures Weight(ws, on) > 0
    ensures |states[t]| == |on| && Weight(states[t], on) == 0
    ensures forall i :: 0 <= i < |on| && on[i] ==> states[t][i] > -Weight(ws, on)
    ensures forall i :: 0 <= i < |on| && !on[i] ==> states[t][i] == states[0][i]
  {
    var c :| 0 <= c < |on| && on[c];
    WeightPositive(ws, on, c);
    if t == 0 {
      ZeroSum(states[0], on, |on|);
    } else {
      ScoresBounded(ws, on, states, picks, t - 1);
      BoundedStep(ws, states[t - 1], on, picks[t - 1], states[t]);
    }
  }

  lemma BoundedStep(ws: seq<int>, cs: seq<int>, on: seq<bool>, w: nat, cs': seq<int>)
    requires Selects(ws, cs, on, w, cs') && Weight(cs, on) == 0 && Weight(ws, on) > 0
    requires forall i :: 0 <= i < |on| && on[i] ==> ws[i] > 0 && cs[i] > -Weight(ws, on)
    ensures Weight(cs', on) == 0
    ensures forall i :: 0 <= i < |on| && on[i] ==> cs'[i] > -Weight(ws, on)
    ensures forall i :: 0 <= i < |on| && !on[i] ==> cs'[i] == cs[i]
  {
    SumAfter(ws, cs, on, w, cs', on, |cs|);
    WinnerIsOwed(ws, cs, on, w);
  }

  /** What selections lo..hi leave a candidate of weight w with: w for each, less W when it won. */
  ghost function Balance(W: int, w: int, picks: seq<nat>, lo: nat, hi: nat, i: nat): int
    requires hi <= |picks|
  {
    if hi <= lo then 0 else Balance(W, w, picks, lo, hi - 1, i) + w - (if picks[hi - 1] == i then W else 0)
  }

  lemma OneMore(W: int, t: int, w: int, n: int, d: int)
    ensures (t - 1) * w - W * n + w - W * d == t * w - W * (n + d)
  {}

  lemma {:induction false} BalanceIs(W: int, w: int, picks: seq<nat>, lo: nat, hi: nat, i: nat)
    requires lo <= hi <= |picks|
    ensures Balance(W, w, picks, lo, hi, i) == (hi - lo) * w - W * Served(picks, lo, hi, i)
  {
    if lo < hi {
      BalanceIs(W, w, picks, lo, hi - 1, i);
      OneMore(W, hi - lo, w, Served(picks, lo, hi - 1, i), if picks[hi - 1] == i then 1 else 0);
    }
  }

  lemma {:induction false} ScoreIsBalance(ws: seq<int>, on: seq<bool>, states: seq<seq<int>>, picks: seq<nat>,
                                          lo: nat, hi: nat, i: nat)
    requires SteadyRun(ws, on, states, picks) && lo <= hi <= |picks|
    requires i < |on| && on[i]
    ensures |states[lo]| == |states[hi]| == |on|
    ensures states[hi][i] == states[lo][i] + Balance(Weight(ws, on), ws[i], picks, lo, hi, i)
  {
    if lo == hi {
      ScoresBounded(ws, on, states, picks, lo);
    } else {
      ScoreIsBalance(ws, on, states, picks, lo, hi - 1, i);
      assert Selects(ws, states[hi - 1], on, picks[hi - 1], states[hi - 1 + 1]);
    }
  }

  /** A candidate's score moves by what it was owed minus what it was given. */
  lemma ScoreLaw(ws: seq<int>, on: seq<bool>, states: seq<seq<int>>, picks: seq<nat>, lo: nat, hi: nat, i: nat)
    requires SteadyRun(ws, on, states, picks) && lo <= hi <= |picks|
    requires i < |on| && on[i]
    ensures |states[lo]| == |states[hi]| == |on|
    ensures states[hi][i] == states[lo][i] + ((hi - lo) * ws[i] - Weight(ws, on) * Served(picks, lo, hi, i))
  {
    ScoreIsBalance(ws, on, states, picks, lo, hi, i);
    BalanceIs(Weight(ws, on), ws[i], picks, lo, hi, i);
  }

  lemma MultipleOf(W: int, w: int, n: int)
    requires W > 0
    ensures W * w - W * n > -W ==> W * w - W * n >= 0
    ensures W * w - W * n == 0 ==> w == n
  {
    assert W * w - W * n == W * (w - n);
    if w - n <= -1 { assert W * (w - n) <= -W; }
  }

  /** After W selections of a fresh pool every score is back where it started. */
  lemma CycleRestores(ws: seq<int>, on: seq<bool>, states: seq<seq<int>>, picks: seq<nat>, W: nat)
    requires SteadyRun(ws, on, states, picks) && W == Weight(ws, on) <= |picks|
    ensures states[W] == states[0]
  {
    ScoresBounded(ws, on, states, picks, W);
    var v := states[W];
    forall i | 0 <= i < |on| && on[i] ensures v[i] >= 0 {
      ScoreLaw(ws, on, states, picks, 0, W, i);
      MultipleOf(W, ws[i], Served(picks, 0, W, i));
    }
    forall i | 0 <= i < |on| && on[i] ensures v[i] == 0 {
      SumAbove(v, on, |v|, i);
    }
  }

  /** The run is periodic: t + W selections leave the same scores as t. */
  lemma {:induction false} Periodic(ws: seq<int>, on: seq<bool>, states: seq<seq<int>>, picks: seq<nat>, W: nat, t: nat)
    requires SteadyRun(ws, on, states, picks) && W == Weight(ws, on) && t + W <= |picks|
    ensures states[t + W] == states[t]
  {
    if t == 0 {
      CycleRestores(ws, on, states, picks, W);
    } else {
      Periodic(ws, on, states, picks, W, t - 1);
      var a, b := t - 1, t - 1 + W;
      assert Selects(ws, states[a], on, picks[a], states[a + 1]);
      assert Selects(ws, states[b], on, picks[b], states[b + 1]);
      SelectionIsUnique(ws, states[a], on, picks[a], states[a + 1], picks[b], states[b + 1]);
    }
  }

  /** Scores are all zero again after every W selections. */
  lemma {:induction false} ZeroEveryCycle(ws: seq<int>, on: seq<bool>, states: seq<seq<int>>, picks: seq<nat>,
                                          W: nat, k: nat, i: nat)
    requires SteadyRun(ws, on, states, picks) && W == Weight(ws, on) && k * W <= |picks|
    requires i < |on| && on[i]
    ensures |states[k * W]| == |on| && states[k * W][i] == 0
  {
    if k > 0 {
      assert (k - 1) * W + W == k * W;
      ZeroEveryCycle(ws, on, states, picks, W, k - 1, i);
      Periodic(ws, on, states, picks, W, (k - 1) * W);
    }
  }

  /** Any W consecutive selections, wherever they start, serve each candidate exactly its weight. */
  lemma FairWindow(ws: seq<int>, on: seq<bool>, states: seq<seq<int>>, picks: seq<nat>, W: nat, t: nat, i: nat)
    requires SteadyRun(ws, on, states, picks) && W == Weight(ws, on) && t + W <= |picks|
    requires i < |on| && on[i]
    ensures Served(picks, t, t + W, i) == ws[i]
  {
    Periodic(ws, on, states, picks, W, t);
    ScoreLaw(ws, on, states, picks, t, t + W, i);
    ScoresBounded(ws, on, states, picks, t);
    MultipleOf(W, ws[i], Served(picks, t, t + W, i));
  }

  ghost function Members(on: seq<bool>, k: nat): nat
    requires k <= |on|
  {
    if k == 0 then 0 else Members(on, k - 1) + (if on[k - 1] then 1 else 0)
  }

  lemma {:induction false} OthersPull(v: seq<int>, on: seq<bool>, k: nat, i: nat, lo: int)
    requires k <= |v| == |on| && i < |on| && on[i]
    requires forall j :: 0 <= j < |v| && on[j] ==> v[j] >= lo
    ensures i < k ==> v[i] + (Members(on, k) - 1) * lo <= Sum(v, on, k)
    ensures i >= k ==> Members(on, k) * lo <= Sum(v, on, k)
  {
    if k > 0 {
      OthersPull(v, on, k - 1, i, lo);
      var m := Members(on, k - 1);
      assert (m + 1) * lo == m * lo + lo && (m - 1) * lo == m * lo - lo;
    }
  }

  /** After t selections backend i is less than one above its exact share t*w/W, and with m
      candidates at most (m-1)(W-1)/W below it. */
  lemma ShareBounds(ws: seq<int>, on: seq<bool>, states: seq<seq<int>>, picks: seq<nat>, t: nat, i: nat)
    requires SteadyRun(ws, on, states, picks) && t <= |picks|
    requires i < |on| && on[i]
    ensures Weight(ws, on) * Served(picks, 0, t, i) < t * ws[i] + Weight(ws, on)
    ensures Weight(ws, on) * Served(picks, 0, t, i) >= t * ws[i] - (Members(on, |on|) - 1) * (Weight(ws, on) - 1)
  {
    ScoreLaw(ws, on, states, picks, 0, t, i);
    ScoresBounded(ws, on, states, picks, t);
    OthersPull(states[t], on, |on|, i, 1 - Weight(ws, on));
    var m, W := Members(on, |on|) - 1, Weight(ws, on);
    assert m * (1 - W) == -(m * (W - 1));
  }
}

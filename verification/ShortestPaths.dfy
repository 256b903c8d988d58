/**
  Walks in a matrix of metrics and the distance between two routers, capped at
  MAX_METRIC, which the matrix also uses for "no link".
 */
module ShortestPaths {

  const MAX_METRIC := 2000

  /** `w[i][j]` is the metric of the link from router i to router j. */
  type Weights = seq<seq<nat>>

  predicate ValidWeights(w: Weights) {
    forall i :: 0 <= i < |w| ==>
      |w[i]| == |w| && w[i][i] == MAX_METRIC && forall j :: 0 <= j < |w| ==> 1 <= w[i][j] <= MAX_METRIC
  }

  predicate IsWalk(w: Weights, p: seq<nat>, a: nat, b: nat) {
    && |p| >= 1 && p[0] == a && p[|p| - 1] == b
    && (forall i :: 0 <= i < |p| ==> p[i] < |w|)
  }

  /** The sum of the metrics along a walk. */
  function Cost(w: Weights, p: seq<nat>): nat
    requires ValidWeights(w) && forall i :: 0 <= i < |p| ==> p[i] < |w|
    decreases |p|
  {
    if |p| <= 1 then 0 else Cost(w, p[..|p| - 1]) + w[p[|p| - 2]][p[|p| - 1]]
  }

  ghost predicate HasWalk(w: Weights, a: nat, b: nat, c: nat)
    requires ValidWeights(w)
  {
    exists p :: IsWalk(w, p, a, b) && Cost(w, p) == c
  }

  /** The least cost from c on that some walk has, or MAX_METRIC. */
  ghost function Least(w: Weights, a: nat, b: nat, c: nat): (d: nat)
    requires ValidWeights(w) && c <= MAX_METRIC
    ensures c <= d <= MAX_METRIC
    ensures d < MAX_METRIC ==> HasWalk(w, a, b, d)
    ensures forall e :: c <= e < d ==> !HasWalk(w, a, b, e)
    decreases MAX_METRIC - c
  {
    if c == MAX_METRIC || HasWalk(w, a, b, c) then c else Least(w, a, b, c + 1)
  }

  /** min(MAX_METRIC, cost of a cheapest walk). */
  ghost function Dist(w: Weights, a: nat, b: nat): (d: nat)
    requires ValidWeights(w)
    ensures d <= MAX_METRIC
  {
    Least(w, a, b, 0)
  }

  lemma DistIsLeast(w: Weights, a: nat, b: nat)
    requires ValidWeights(w)
    ensures forall p :: IsWalk(w, p, a, b) ==> Dist(w, a, b) <= Cost(w, p)
    ensures Dist(w, a, b) < MAX_METRIC ==> exists p :: IsWalk(w, p, a, b) && Cost(w, p) == Dist(w, a, b)
  {
    forall p | IsWalk(w, p, a, b)
      ensures Dist(w, a, b) <= Cost(w, p)
    {
      assert HasWalk(w, a, b, Cost(w, p));
    }
  }

  lemma DistSelf(w: Weights, a: nat)
    requires ValidWeights(w) && a < |w|
    ensures Dist(w, a, a) == 0
  {
    DistIsLeast(w, a, a);
    assert IsWalk(w, [a], a, a) && Cost(w, [a]) == 0;
  }

  /** A walk can be extended at its end. */
  lemma DistStep(w: Weights, a: nat, b: nat, c: nat)
    requires ValidWeights(w) && a < |w| && b < |w| && c < |w|
    ensures Dist(w, a, c) <= Dist(w, a, b) + w[b][c]
  {
    hide Dist;
    DistIsLeast(w, a, b);
    DistIsLeast(w, a, c);
    if Dist(w, a, b) < MAX_METRIC {
      var p :| IsWalk(w, p, a, b) && Cost(w, p) == Dist(w, a, b);
      var q := p + [c];
      assert q[..|q| - 1] == p && q[|q| - 2] == b && q[|q| - 1] == c;
      assert IsWalk(w, q, a, c) && Cost(w, q) == Cost(w, p) + w[b][c];
    }
  }

  /** A cheapest walk has a last link, before which it is cheapest too. */
  lemma DistLast(w: Weights, a: nat, c: nat) returns (b: nat)
    requires ValidWeights(w) && a < |w| && c < |w| && a != c && Dist(w, a, c) < MAX_METRIC
    ensures b < |w| && Dist(w, a, b) + w[b][c] == Dist(w, a, c)
  {
    hide Dist;
    DistIsLeast(w, a, c);
    var p :| IsWalk(w, p, a, c) && Cost(w, p) == Dist(w, a, c);
    var q := p[..|p| - 1];
    b := q[|q| - 1];
    assert IsWalk(w, q, a, b);
    DistIsLeast(w, a, b);
    DistStep(w, a, b, c);
  }

  lemma {:induction false} CostCons(w: Weights, a: nat, p: seq<nat>)
    requires ValidWeights(w) && a < |w| && |p| >= 1 && forall i :: 0 <= i < |p| ==> p[i] < |w|
    ensures Cost(w, [a] + p) == w[a][p[0]] + Cost(w, p)
    decreases |p|
  {
    var q := [a] + p;
    assert q[|q| - 2] == if |p| == 1 then a else p[|p| - 2];
    if |p| == 1 {
      assert q[..|q| - 1] == [a];
    } else {
      assert q[..|q| - 1] == [a] + p[..|p| - 1];
      CostCons(w, a, p[..|p| - 1]);
    }
  }

  /** A walk can be extended at its beginning. */
  lemma DistFirst(w: Weights, a: nat, b: nat, c: nat)
    requires ValidWeights(w) && a < |w| && b < |w| && c < |w|
    ensures Dist(w, a, c) <= w[a][b] + Dist(w, b, c)
  {
    hide Dist;
    DistIsLeast(w, b, c);
    DistIsLeast(w, a, c);
    if Dist(w, b, c) < MAX_METRIC {
      var p :| IsWalk(w, p, b, c) && Cost(w, p) == Dist(w, b, c);
      CostCons(w, a, p);
      assert IsWalk(w, [a] + p, a, c);
    }
  }

  /** Router h starts a cheapest walk from s to j. */
  ghost predicate FirstHop(w: Weights, s: nat, j: nat, h: nat)
    requires ValidWeights(w) && s < |w|
  {
    h < |w| && w[s][h] + Dist(w, h, j) == Dist(w, s, j)
  }

  /** First hops pass on from predecessors: the step that makes merging next-hop sets exact. */
  lemma FirstHopViaPredecessor(w: Weights, s: nat, b: nat, j: nat, h: nat)
    requires ValidWeights(w) && s < |w| && b < |w| && j < |w|
    requires Dist(w, s, b) + w[b][j] == Dist(w, s, j) < MAX_METRIC && FirstHop(w, s, b, h)
    ensures FirstHop(w, s, j, h)
  {
    DistStep(w, h, b, j);
    DistFirst(w, s, h, j);
  }

  lemma FirstHopDirect(w: Weights, s: nat, j: nat)
    requires ValidWeights(w) && s < |w| && j < |w| && w[s][j] == Dist(w, s, j)
    ensures FirstHop(w, s, j, j)
  {
    DistSelf(w, j);
  }

  /** Every first hop is the direct link or comes from a predecessor other than s. */
  lemma FirstHopFrom(w: Weights, s: nat, j: nat, h: nat) returns (b: nat)
    requires ValidWeights(w) && s < |w| && j < |w| && j != s && h != j
    requires Dist(w, s, j) < MAX_METRIC && FirstHop(w, s, j, h)
    ensures b < |w| && b != s && Dist(w, s, b) + w[b][j] == Dist(w, s, j) && FirstHop(w, s, b, h)
  {
    b := DistLast(w, h, j);
    DistFirst(w, s, h, b);
    DistStep(w, s, b, j);
    DistSelf(w, s);
  }

  ghost predicate StartsCheapest(w: Weights, s: nat, j: nat, h: nat, p: seq<nat>)
    requires ValidWeights(w)
  {
    IsWalk(w, p, s, j) && |p| >= 2 && p[1] == h && Cost(w, p) == Dist(w, s, j)
  }

  lemma SecondIsFirstHop(w: Weights, s: nat, j: nat, h: nat, p: seq<nat>)
    requires ValidWeights(w) && s < |w| && j < |w| && h < |w| && StartsCheapest(w, s, j, h, p)
    ensures FirstHop(w, s, j, h)
  {
    hide Dist;
    var q := p[1..];
    assert p == [s] + q && IsWalk(w, q, h, j);
    CostCons(w, s, q);
    DistIsLeast(w, h, j);
    DistFirst(w, s, h, j);
  }

  /** The first hops of (s, j) are exactly the second routers of cheapest walks from s to j. */
  lemma FirstHopStartsCheapestWalk(w: Weights, s: nat, j: nat, h: nat)
    requires ValidWeights(w) && s < |w| && j < |w| && j != s && h < |w| && Dist(w, s, j) < MAX_METRIC
    ensures FirstHop(w, s, j, h) <==> exists p :: StartsCheapest(w, s, j, h, p)
  {
    hide Dist;
    if FirstHop(w, s, j, h) {
      DistIsLeast(w, h, j);
      var q :| IsWalk(w, q, h, j) && Cost(w, q) == Dist(w, h, j);
      CostCons(w, s, q);
      assert StartsCheapest(w, s, j, h, [s] + q);
    }
    if p :| StartsCheapest(w, s, j, h, p) {
      SecondIsFirstHop(w, s, j, h, p);
    }
  }
}

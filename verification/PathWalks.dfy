/**
  The walks that chosen next hops describe, their links, and the weight of the
  paths that a set of failed links breaks.
 */
module PathWalks {
  import opened Sequences
  import opened ShortestPaths

  /** `nh[i][j]` is the next hop chosen at i towards j. */
  ghost predicate SolvedHops(w: Weights, nh: seq<seq<nat>>)
    requires ValidWeights(w)
  {
    && |nh| == |w| && (forall i :: 0 <= i < |w| ==> |nh[i]| == |w|)
    && (forall i, j :: 0 <= i < |w| && 0 <= j < |w| && i != j && Dist(w, i, j) < MAX_METRIC ==>
        FirstHop(w, i, j, nh[i][j]))
  }

  lemma NextIsNearer(w: Weights, nh: seq<seq<nat>>, i: nat, j: nat)
    requires ValidWeights(w) && SolvedHops(w, nh) && i < |w| && j < |w| && i != j && Dist(w, i, j) < MAX_METRIC
    ensures var h := nh[i][j];
            h < |w| && h != i && w[i][h] < MAX_METRIC && Dist(w, h, j) == Dist(w, i, j) - w[i][h] < Dist(w, i, j)
  {
  }

  /** Following the next hops from i to j. */
  ghost function Greedy(w: Weights, nh: seq<seq<nat>>, i: nat, j: nat): (p: seq<nat>)
    requires ValidWeights(w) && SolvedHops(w, nh) && i < |w| && j < |w| && Dist(w, i, j) < MAX_METRIC
    ensures IsWalk(w, p, i, j)
    decreases Dist(w, i, j)
  {
    if i == j then [i] else
      NextIsNearer(w, nh, i, j);
      [i] + Greedy(w, nh, nh[i][j], j)
  }

  /** Every step of p is over a real link and comes nearer to j. */
  ghost predicate Nearing(w: Weights, p: seq<nat>, j: nat)
    requires ValidWeights(w) && forall k :: 0 <= k < |p| ==> p[k] < |w|
  {
    forall k :: 0 <= k < |p| - 1 ==> w[p[k]][p[k + 1]] < MAX_METRIC && Dist(w, p[k + 1], j) < Dist(w, p[k], j)
  }

  /** Following the next hops is a cheapest walk. */
  lemma {:induction false} GreedyIsCheapest(w: Weights, nh: seq<seq<nat>>, i: nat, j: nat)
    requires ValidWeights(w) && SolvedHops(w, nh) && i < |w| && j < |w| && Dist(w, i, j) < MAX_METRIC
    ensures Cost(w, Greedy(w, nh, i, j)) == Dist(w, i, j) && Nearing(w, Greedy(w, nh, i, j), j)
    decreases Dist(w, i, j)
  {
    hide FirstHop;
    if i == j {
      DistSelf(w, i);
    } else {
      NextIsNearer(w, nh, i, j);
      var q := Greedy(w, nh, nh[i][j], j);
      GreedyIsCheapest(w, nh, nh[i][j], j);
      CostCons(w, i, q);
      NearingCons(w, i, q, j);
    }
  }

  lemma NearingCons(w: Weights, i: nat, q: seq<nat>, j: nat)
    requires ValidWeights(w) && i < |w| && q != [] && (forall k :: 0 <= k < |q| ==> q[k] < |w|) && Nearing(w, q, j)
    requires w[i][q[0]] < MAX_METRIC && Dist(w, q[0], j) < Dist(w, i, j)
    ensures Nearing(w, [i] + q, j)
  {
  }

  /** Such a walk never meets a router twice. */
  lemma {:induction false} NearingNoRepeat(w: Weights, p: seq<nat>, j: nat)
    requires ValidWeights(w) && (forall k :: 0 <= k < |p| ==> p[k] < |w|) && Nearing(w, p, j)
    ensures NoRepeat(p) && forall a :: 0 <= a < |p| - 1 ==> Dist(w, p[|p| - 1], j) < Dist(w, p[a], j)
    decreases |p|
  {
    hide Dist;
    if |p| > 1 {
      var q := p[..|p| - 1];
      assert Nearing(w, q, j);
      NearingNoRepeat(w, q, j);
      assert p[|p| - 2 + 1] == p[|p| - 1] && p[|p| - 2] == q[|q| - 1];
      forall a | 0 <= a < |p| - 1
        ensures Dist(w, p[|p| - 1], j) < Dist(w, p[a], j)
      {
        assert p[a] == q[a];
      }
    }
  }

  /** The walk goes where the next hops point, and reaches j only at its end. */
  lemma {:induction false} GreedyFollows(w: Weights, nh: seq<seq<nat>>, i: nat, j: nat, k: nat)
    requires ValidWeights(w) && SolvedHops(w, nh) && i < |w| && j < |w| && Dist(w, i, j) < MAX_METRIC
    requires k < |Greedy(w, nh, i, j)| - 1
    ensures var p := Greedy(w, nh, i, j);
            p[k] < |w| && p[k] != j && p[k + 1] == nh[p[k]][j]
    decreases k
  {
    hide FirstHop;
    if i != j {
      NextIsNearer(w, nh, i, j);
      if k > 0 {
        GreedyFollows(w, nh, nh[i][j], j, k - 1);
      }
    }
  }

  /** `li[i][j]` numbers the link from i to j, or is -1; `ends` undoes the numbering. */
  predicate Numbered(w: Weights, li: seq<seq<int>>, ends: seq<(nat, nat)>)
    requires ValidWeights(w)
  {
    && |li| == |w| && (forall i :: 0 <= i < |w| ==> |li[i]| == |w| && li[i][i] == -1)
    && (forall i, j :: 0 <= i < |w| && 0 <= j < |w| ==>
          li[i][j] < |ends| && (w[i][j] < MAX_METRIC ==> 0 <= li[i][j]) && (0 <= li[i][j] ==> ends[li[i][j]] == (i, j)))
  }

  /** The link indexes along a walk. */
  function LinksOf(li: seq<seq<int>>, p: seq<nat>): (ls: seq<int>)
    requires forall k :: 0 <= k < |p| ==> p[k] < |li| && |li[p[k]]| == |li|
    ensures |ls| == if |p| == 0 then 0 else |p| - 1
    ensures forall k :: 0 <= k < |ls| ==> ls[k] == li[p[k]][p[k + 1]]
    decreases |p|
  {
    if |p| <= 1 then [] else LinksOf(li, p[..|p| - 1]) + [li[p[|p| - 2]][p[|p| - 1]]]
  }

  /** The next link of a walk without repeated routers is a new one. */
  lemma LinkIsNew(w: Weights, li: seq<seq<int>>, ends: seq<(nat, nat)>, p: seq<nat>, k: nat)
    requires ValidWeights(w) && Numbered(w, li, ends) && NoRepeat(p) && k < |p| - 1
    requires (forall a :: 0 <= a < |p| ==> p[a] < |w|) && w[p[k]][p[k + 1]] < MAX_METRIC
    ensures 0 <= li[p[k]][p[k + 1]] < |ends|
    ensures li[p[k]][p[k + 1]] !in LinksOf(li, p[..k + 1])
    ensures LinksOf(li, p[..k + 2]) == LinksOf(li, p[..k + 1]) + [li[p[k]][p[k + 1]]]
  {
    var l, q := li[p[k]][p[k + 1]], p[..k + 1];
    assert p[..k + 2][..|p[..k + 2]| - 1] == q;
    forall a | 0 <= a < |LinksOf(li, q)|
      ensures LinksOf(li, q)[a] != l
    {
      assert LinksOf(li, q)[a] == li[p[a]][p[a + 1]] && p[a] != p[k];
    }
  }

  // ----- weights -----

  /** A path of the area: the links its recorded walk uses, and its weight. */
  datatype Path = Path(links: seq<int>, weight: nat)

  predicate BrokenBy(p: Path, failed: set<int>) {
    exists l :: l in p.links && l in failed
  }

  function TotalWeight(ps: seq<Path>): nat {
    if ps == [] then 0 else ps[0].weight + TotalWeight(ps[1..])
  }

  function BrokenWeight(ps: seq<Path>, failed: set<int>): nat {
    if ps == [] then 0 else (if BrokenBy(ps[0], failed) then ps[0].weight else 0) + BrokenWeight(ps[1..], failed)
  }

  /** What each path adds to the two weights. */
  lemma {:induction false} WeightsAreSums(ps: seq<Path>, failed: set<int>, all: seq<nat>, lost: seq<nat>)
    requires |all| == |lost| == |ps|
    requires forall k :: 0 <= k < |ps| ==>
      all[k] == ps[k].weight && lost[k] == if BrokenBy(ps[k], failed) then all[k] else 0
    ensures TotalWeight(ps) == Sum(all) && BrokenWeight(ps, failed) == Sum(lost)
    decreases |ps|
  {
    if ps != [] {
      WeightsAreSums(ps[1..], failed, all[1..], lost[1..]);
      assert all == [all[0]] + all[1..] && lost == [lost[0]] + lost[1..];
      SumConcat([all[0]], all[1..]);
      SumConcat([lost[0]], lost[1..]);
      SumOne(all[0]);
      SumOne(lost[0]);
    }
  }

  /** Broken weight lies between nothing and everything and grows with the set of failed links. */
  lemma {:induction false} BrokenWeightMonotone(ps: seq<Path>, failed: set<int>, more: set<int>)
    requires failed <= more
    ensures BrokenWeight(ps, {}) == 0
    ensures BrokenWeight(ps, failed) <= BrokenWeight(ps, more) <= TotalWeight(ps)
  {
    if ps == [] {
    } else {
      BrokenWeightMonotone(ps[1..], failed, more);
      assert BrokenBy(ps[0], failed) ==> BrokenBy(ps[0], more);
    }
  }
}

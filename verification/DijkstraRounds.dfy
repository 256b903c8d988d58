/**
  What the rounds of `dijkstra` (ddc/ddc.c) keep: tentative distances and merged
  next-hop lists, stated on values. The rounds themselves are in module Ddc.
 */
module DijkstraRounds {
  import opened Sequences
  import opened ShortestPaths

  /** The entries of q that are not in dst, in order. */
  function Fresh(dst: seq<nat>, q: seq<nat>): (r: seq<nat>)
    ensures forall h :: h in r <==> h in q && h !in dst
    ensures NoRepeat(q) ==> NoRepeat(r)
  {
    if q == [] then [] else
      var r := Fresh(dst, q[..|q| - 1]);
      if q[|q| - 1] in dst then r else r + [q[|q| - 1]]
  }

  /** The next hops of dst followed by those of q that it lacks. */
  function Merge(dst: seq<nat>, q: seq<nat>): (r: seq<nat>)
    ensures forall h :: h in r <==> h in dst || h in q
    ensures NoRepeat(dst) && NoRepeat(q) ==> NoRepeat(r)
  {
    var f := Fresh(dst, q);
    assert forall k :: 0 <= k < |f| ==> f[k] in f && f[k] !in dst;
    dst + f
  }

  /** One round's state: tentative distances, visited marks and next hops from router s. */
  datatype Rounds = Rounds(dist: seq<nat>, vis: seq<bool>, hops: seq<seq<nat>>)

  predicate Sized(w: Weights, s: nat, r: Rounds) {
    s < |w| == |r.dist| == |r.vis| == |r.hops|
  }

  /** What min_cost looks for. */
  predicate Candidate(r: Rounds, i: nat) {
    i < |r.dist| == |r.vis| && !r.vis[i] && 0 < r.dist[i] < MAX_METRIC
  }

  /** The router min_cost returns: a nearest candidate, whichever, or index 0 if there is none. */
  ghost predicate Chosen(r: Rounds, u: nat) {
    if exists i: nat :: Candidate(r, i) then
      Candidate(r, u) && forall i: nat :: Candidate(r, i) ==> r.dist[u] <= r.dist[i]
    else u == 0
  }

  /** The distance from which router u relaxes: s itself counts as 0 by then. */
  function From(s: nat, r: Rounds, u: nat): nat
    requires u < |r.dist|
  {
    if u == s then 0 else r.dist[u]
  }

  function RelaxDist(w: Weights, s: nat, r: Rounds, u: nat, j: nat): nat
    requires ValidWeights(w) && Sized(w, s, r) && u < |w| && j < |w|
  {
    if j == s then 0
    else if !r.vis[j] && From(s, r, u) + w[u][j] < r.dist[j] then From(s, r, u) + w[u][j]
    else r.dist[j]
  }

  function RelaxHops(w: Weights, s: nat, r: Rounds, u: nat, j: nat): seq<nat>
    requires ValidWeights(w) && Sized(w, s, r) && u < |w| && j < |w|
  {
    if j == s || r.vis[j] || From(s, r, u) + w[u][j] > r.dist[j] then r.hops[j]
    else if From(s, r, u) + w[u][j] < r.dist[j] then r.hops[u]
    else Merge(r.hops[j], r.hops[u])
  }

  /** Marking u and relaxing every other router from it. */
  predicate Round(w: Weights, s: nat, r: Rounds, u: nat, r': Rounds)
    requires ValidWeights(w) && Sized(w, s, r) && u < |w|
  {
    var r1 := r.(vis := r.vis[u := true]);
    && Sized(w, s, r') && r'.vis == r1.vis
    && (forall j :: 0 <= j < |w| ==> r'.dist[j] == RelaxDist(w, s, r1, u, j))
  }

  predicate RoundOfHops(w: Weights, s: nat, r: Rounds, u: nat, r': Rounds)
    requires ValidWeights(w) && Sized(w, s, r) && u < |w| && Sized(w, s, r')
  {
    var r1 := r.(vis := r.vis[u := true]);
    forall j :: 0 <= j < |w| ==> r'.hops[j] == RelaxHops(w, s, r1, u, j)
  }

  // ----- distances -----

  /** Tentative distances lie between the true ones and every offer made so far. */
  ghost predicate CostInv(w: Weights, s: nat, r: Rounds)
    requires ValidWeights(w)
  {
    && Sized(w, s, r)
    && (r.dist[s] == 0 || r.dist[s] == MAX_METRIC)
    && (forall j :: 0 <= j < |w| && j != s ==>
          Dist(w, s, j) <= r.dist[j] <= w[s][j] && (r.vis[j] ==> r.dist[j] == Dist(w, s, j)))
    && (forall v, j :: 0 <= v < |w| && 0 <= j < |w| && v != s && j != s && r.vis[v] ==>
        r.dist[j] <= r.dist[v] + w[v][j])
  }

  lemma DistPositive(w: Weights, s: nat, j: nat)
    requires ValidWeights(w) && s < |w| && j < |w| && j != s
    ensures Dist(w, s, j) >= 1
  {
  }

  /** Before a router that is not yet visited there is an unvisited one whose distance is already true. */
  lemma {:induction false} Frontier(w: Weights, s: nat, r: Rounds, x: nat) returns (u: nat)
    requires ValidWeights(w) && CostInv(w, s, r) && x < |w| && x != s && !r.vis[x] && Dist(w, s, x) < MAX_METRIC
    ensures u < |w| && u != s && !r.vis[u] && r.dist[u] == Dist(w, s, u) <= Dist(w, s, x)
    decreases Dist(w, s, x)
  {
    var b := DistLast(w, s, x);
    DistSelf(w, s);
    if b == s || r.vis[b] {
      u := x;
    } else {
      u := Frontier(w, s, r, b);
    }
  }

  /** A chosen candidate has its true distance. */
  lemma ChosenIsFinal(w: Weights, s: nat, r: Rounds, u: nat)
    requires ValidWeights(w) && CostInv(w, s, r) && Candidate(r, u) && Chosen(r, u)
    ensures u != s && r.dist[u] == Dist(w, s, u)
  {
    var v := Frontier(w, s, r, u);
    DistPositive(w, s, v);
    assert Candidate(r, v);
  }

  /** With no candidate left, everything unvisited is out of reach. */
  lemma NothingLeft(w: Weights, s: nat, r: Rounds, x: nat)
    requires ValidWeights(w) && CostInv(w, s, r) && x < |w| && x != s && !r.vis[x]
    requires !exists i: nat :: Candidate(r, i)
    ensures r.dist[x] == Dist(w, s, x) == MAX_METRIC
  {
    if Dist(w, s, x) < MAX_METRIC {
      var v := Frontier(w, s, r, x);
      DistPositive(w, s, v);
      assert Candidate(r, v);
    }
  }

  lemma RoundKeepsCost(w: Weights, s: nat, r: Rounds, u: nat, r': Rounds)
    requires ValidWeights(w) && CostInv(w, s, r) && Chosen(r, u) && u < |w| && Round(w, s, r, u, r')
    ensures CostInv(w, s, r')
    ensures u != s ==> r.dist[u] == Dist(w, s, u)
    ensures (forall i: nat :: !Candidate(r, i)) ==> forall i: nat :: !Candidate(r', i)
  {
    hide Dist;
    if exists i: nat :: Candidate(r, i) {
      ChosenIsFinal(w, s, r, u);
    } else {
      forall x | 0 <= x < |w| && x != s && !r.vis[x]
        ensures r.dist[x] == Dist(w, s, x) == MAX_METRIC
      {
        NothingLeft(w, s, r, x);
      }
    }
    DistSelf(w, s);
    forall j | 0 <= j < |w| && j != s
      ensures Dist(w, s, j) <= r'.dist[j] <= r.dist[j]
      ensures u != s ==> r'.dist[j] <= r.dist[u] + w[u][j]
    {
      DistStep(w, s, u, j);
    }
    forall v, j | 0 <= v < |w| && 0 <= j < |w| && v != s && j != s && r'.vis[v]
      ensures r'.dist[j] <= r'.dist[v] + w[v][j]
    {
      assert v == u || r.dist[j] <= r.dist[v] + w[v][j];
    }
  }

  // ----- next hops -----

  /** Router h starts the direct link to j, or a cheapest walk to a visited router that offers j its distance. */
  ghost predicate Offered(w: Weights, s: nat, r: Rounds, j: nat, h: nat)
    requires ValidWeights(w) && Sized(w, s, r) && j < |w|
  {
    || (h == j && w[s][j] == r.dist[j])
    || exists v :: OfferedBy(w, s, r, j, h, v)
  }

  ghost predicate OfferedBy(w: Weights, s: nat, r: Rounds, j: nat, h: nat, v: nat)
    requires ValidWeights(w) && Sized(w, s, r) && j < |w|
  {
    v < |w| && v != s && r.vis[v] && r.dist[v] + w[v][j] == r.dist[j] && FirstHop(w, s, v, h)
  }

  /** Next hops are distinct neighbours of s. */
  predicate HopsAreNeighbours(w: Weights, s: nat, hops: seq<seq<nat>>)
    requires ValidWeights(w) && s < |w|
  {
    && |hops| == |w| && hops[s] == []
    && (forall j :: 0 <= j < |w| ==> NoRepeat(hops[j]) && AreNeighbours(w, s, hops[j]))
  }

  predicate AreNeighbours(w: Weights, s: nat, q: seq<nat>)
    requires ValidWeights(w) && s < |w|
  {
    forall h :: h in q ==> h < |w| && w[s][h] < MAX_METRIC
  }

  /** Visited routers have exactly their first hops, the others exactly those offered so far. */
  ghost predicate HopInv(w: Weights, s: nat, r: Rounds)
    requires ValidWeights(w)
  {
    && Sized(w, s, r) && HopsAreNeighbours(w, s, r.hops)
    && (forall j, h :: 0 <= j < |w| && j != s && r.vis[j] && r.dist[j] < MAX_METRIC ==>
        (h in r.hops[j] <==> FirstHop(w, s, j, h)))
    && (forall j, h :: 0 <= j < |w| && j != s && !r.vis[j] && r.dist[j] < MAX_METRIC ==>
        (h in r.hops[j] <==> Offered(w, s, r, j, h)))
  }

  lemma RoundKeepsNeighbours(w: Weights, s: nat, r: Rounds, u: nat, r': Rounds)
    requires ValidWeights(w) && Sized(w, s, r) && HopsAreNeighbours(w, s, r.hops) && u < |w|
    requires Round(w, s, r, u, r') && RoundOfHops(w, s, r, u, r')
    ensures HopsAreNeighbours(w, s, r'.hops)
  {
  }

  /** The next hops of the router chosen are exactly its first hops: its predecessors are all visited. */
  lemma ChosenHops(w: Weights, s: nat, r: Rounds, u: nat, h: nat)
    requires ValidWeights(w) && CostInv(w, s, r) && HopInv(w, s, r) && Candidate(r, u) && Chosen(r, u)
    ensures u != s && (h in r.hops[u] <==> FirstHop(w, s, u, h))
  {
    ChosenIsFinal(w, s, r, u);
    if Offered(w, s, r, u, h) {
      if h == u && w[s][u] == r.dist[u] {
        FirstHopDirect(w, s, u);
      } else {
        var v :| OfferedBy(w, s, r, u, h, v);
        FirstHopViaPredecessor(w, s, v, u, h);
      }
    }
    if FirstHop(w, s, u, h) {
      if h == u {
        DistSelf(w, u);
      } else {
        var b := FirstHopFrom(w, s, u, h);
        if !r.vis[b] {
          var v := Frontier(w, s, r, b);
          DistPositive(w, s, v);
          assert Candidate(r, v);
        }
        assert OfferedBy(w, s, r, u, h, b);
      }
    }
  }

  /** What router j is offered once u is visited too. */
  lemma OfferedAfter(w: Weights, s: nat, r: Rounds, u: nat, r': Rounds, j: nat, h: nat)
    requires ValidWeights(w) && CostInv(w, s, r) && HopInv(w, s, r) && Candidate(r, u) && Chosen(r, u)
    requires Round(w, s, r, u, r') && RoundOfHops(w, s, r, u, r')
    requires j < |w| && j != s && !r'.vis[j] && r'.dist[j] < MAX_METRIC
    ensures h in r'.hops[j] <==> Offered(w, s, r', j, h)
  {
    ChosenIsFinal(w, s, r, u);
    ChosenHops(w, s, r, u, h);
    var sum := r.dist[u] + w[u][j];
    assert OfferedBy(w, s, r', j, h, u) <==> sum == r'.dist[j] && h in r.hops[u];
    forall v: nat | v != u
      ensures OfferedBy(w, s, r', j, h, v) <==> r'.dist[j] == r.dist[j] && OfferedBy(w, s, r, j, h, v)
    {
    }
  }

  lemma RoundKeepsHops(w: Weights, s: nat, r: Rounds, u: nat, r': Rounds)
    requires ValidWeights(w) && CostInv(w, s, r) && HopInv(w, s, r) && Chosen(r, u) && u < |w|
    requires Round(w, s, r, u, r') && RoundOfHops(w, s, r, u, r')
    ensures HopInv(w, s, r')
  {
    RoundKeepsNeighbours(w, s, r, u, r');
    RoundKeepsCost(w, s, r, u, r');
    if exists i: nat :: Candidate(r, i) {
      ChosenIsFinal(w, s, r, u);
      forall j, h | 0 <= j < |w| && j != s && r'.dist[j] < MAX_METRIC
        ensures r'.vis[j] ==> (h in r'.hops[j] <==> FirstHop(w, s, j, h))
        ensures !r'.vis[j] ==> (h in r'.hops[j] <==> Offered(w, s, r', j, h))
      {
        if j == u {
          ChosenHops(w, s, r, u, h);
        } else if !r'.vis[j] {
          OfferedAfter(w, s, r, u, r', j, h);
        }
      }
    } else {
      forall x | 0 <= x < |w| && x != s && !r.vis[x]
        ensures r.dist[x] == MAX_METRIC && r'.dist[x] == MAX_METRIC
      {
        NothingLeft(w, s, r, x);
      }
    }
  }

  // ----- the first and the last state -----

  /** The state before the first round: distances are the direct metrics, next hops the direct links. */
  predicate Starts(w: Weights, s: nat, r: Rounds)
    requires ValidWeights(w)
  {
    && Sized(w, s, r)
    && (forall j :: 0 <= j < |w| ==>
          r.dist[j] == w[s][j] && !r.vis[j] && r.hops[j] == if w[s][j] < MAX_METRIC then [j] else [])
  }

  lemma StartGood(w: Weights, s: nat, r: Rounds)
    requires ValidWeights(w) && Starts(w, s, r)
    ensures CostInv(w, s, r) && HopInv(w, s, r)
  {
    DistSelf(w, s);
    forall j | 0 <= j < |w| && j != s
      ensures Dist(w, s, j) <= r.dist[j]
    {
      DistStep(w, s, s, j);
    }
    assert forall j, h, v :: 0 <= j < |w| && 0 <= v < |w| ==> !OfferedBy(w, s, r, j, h, v);
  }

  /** Costs and next hops of row s are right. */
  ghost predicate Exact(w: Weights, s: nat, r: Rounds)
    requires ValidWeights(w)
  {
    && Sized(w, s, r)
    && (forall j :: 0 <= j < |w| ==> r.dist[j] == Dist(w, s, j) && NoRepeat(r.hops[j]))
    && (forall j, h :: 0 <= j < |w| && j != s && r.dist[j] < MAX_METRIC ==> (h in r.hops[j] <==> FirstHop(w, s, j, h)))
  }

  lemma ExactCosts(w: Weights, s: nat, r: Rounds)
    requires ValidWeights(w) && CostInv(w, s, r) && r.dist[s] == 0 && !exists i: nat :: Candidate(r, i)
    ensures forall j :: 0 <= j < |w| ==> r.dist[j] == Dist(w, s, j)
    ensures HopInv(w, s, r) ==> Exact(w, s, r)
  {
    DistSelf(w, s);
    forall j | 0 <= j < |w| && j != s && !r.vis[j]
      ensures r.dist[j] == Dist(w, s, j) == MAX_METRIC
    {
      NothingLeft(w, s, r, j);
    }
  }
}

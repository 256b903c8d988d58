/**
  A run of `dijkstra` (ddc/ddc.c) with next-hop lists of any length, as a function of
  the graph and of the interface ids that break ties: which router each round
  chooses, and the state it leaves. The program does the same exactly as long as
  these lists fit its arrays.
 */
module UnboundedRounds {
  import opened Sequences
  import opened ShortestPaths
  import opened DijkstraRounds

  const MAX_INTERFACE := 999
  const MAX_ECMP_LIMIT := 4

  /** No list is longer than a next-hop array. */
  predicate AllFit(hops: seq<seq<nat>>) {
    forall j :: 0 <= j < |hops| ==> |hops[j]| <= MAX_ECMP_LIMIT
  }

  // ----- the choice of min_cost -----

  /** The interface id by which router i is judged: that of the link towards its first next hop. */
  function IfidOf(r: Rounds, ifids: nat -> nat, i: nat): nat
    requires i < |r.hops|
  {
    ifids(if r.hops[i] == [] then 0 else r.hops[i][0])
  }

  /** Router i is preferred to k wherever they stand: nearer, or as near over a smaller interface id. */
  predicate Closer(r: Rounds, ifids: nat -> nat, i: nat, k: nat)
    requires i < |r.dist| == |r.hops| && k < |r.dist|
  {
    r.dist[i] < r.dist[k] || (r.dist[i] == r.dist[k] && IfidOf(r, ifids, i) < IfidOf(r, ifids, k))
  }

  /** Candidate u is preferred to every candidate before it, and none after it is preferred to u. */
  ghost predicate Picked(r: Rounds, ifids: nat -> nat, u: nat)
    requires |r.dist| == |r.vis| == |r.hops|
  {
    if exists i: nat :: Candidate(r, i) then
      && Candidate(r, u)
      && (forall i: nat :: Candidate(r, i) ==> !Closer(r, ifids, i, u) && (i < u ==> Closer(r, ifids, u, i)))
    else u == 0
  }

  /** The router picked among those below n. */
  function Pick(r: Rounds, ifids: nat -> nat, n: nat): (u: nat)
    requires n <= |r.dist| == |r.vis| == |r.hops|
    ensures u == 0 || u < n
    ensures forall i: nat :: i < n && Candidate(r, i) ==>
      u < n && Candidate(r, u) && !Closer(r, ifids, i, u) && (i < u ==> Closer(r, ifids, u, i))
    ensures (forall i: nat :: i < n ==> !Candidate(r, i)) ==> u == 0
  {
    if n == 0 then 0
    else
      var b := Pick(r, ifids, n - 1);
      if Candidate(r, n - 1) && !(b < n - 1 && Candidate(r, b) && !Closer(r, ifids, n - 1, b)) then n - 1 else b
  }

  lemma PickedIsChosen(r: Rounds, ifids: nat -> nat, u: nat)
    requires |r.dist| == |r.vis| == |r.hops| && Picked(r, ifids, u)
    ensures Chosen(r, u)
  {
  }

  /** The choice is unique, so every run makes it. */
  lemma PickedOnce(r: Rounds, ifids: nat -> nat, u: nat)
    requires |r.dist| == |r.vis| == |r.hops|
    ensures Picked(r, ifids, u) <==> u == Pick(r, ifids, |r.dist|)
  {
    var p := Pick(r, ifids, |r.dist|);
    if i: nat :| Candidate(r, i) {
      assert Candidate(r, p);
    }
  }

  // ----- the run -----

  /** Row s as init_lidb_info leaves it. */
  function Started(w: Weights, s: nat): (r: Rounds)
    requires ValidWeights(w) && s < |w|
    ensures Starts(w, s, r)
  {
    Rounds(w[s], seq(|w|, _ => false),
           seq(|w|, j requires 0 <= j < |w| => if w[s][j] < MAX_METRIC then [j] else []))
  }

  function NextRound(w: Weights, s: nat, r: Rounds, u: nat): (r': Rounds)
    requires ValidWeights(w) && Sized(w, s, r) && u < |w|
    ensures Sized(w, s, r') && Round(w, s, r, u, r') && RoundOfHops(w, s, r, u, r')
  {
    var r1 := r.(vis := r.vis[u := true]);
    Rounds(seq(|w|, j requires 0 <= j < |w| => RelaxDist(w, s, r1, u, j)), r1.vis,
           seq(|w|, j requires 0 <= j < |w| => RelaxHops(w, s, r1, u, j)))
  }

  /** The state after n rounds. */
  function Unbounded(w: Weights, s: nat, ifids: nat -> nat, n: nat): (r: Rounds)
    requires ValidWeights(w) && s < |w|
    ensures Sized(w, s, r)
  {
    if n == 0 then Started(w, s)
    else
      var r := Unbounded(w, s, ifids, n - 1);
      NextRound(w, s, r, Pick(r, ifids, |w|))
  }

  /** Up to round n no list is longer than its array. */
  predicate FitsUpTo(w: Weights, s: nat, ifids: nat -> nat, n: nat)
    requires ValidWeights(w) && s < |w|
  {
    forall k :: 0 <= k <= n ==> AllFit(Unbounded(w, s, ifids, k).hops)
  }

  /** No list of the whole run is longer than its array. */
  predicate Fits(w: Weights, s: nat, ifids: nat -> nat)
    requires ValidWeights(w) && s < |w|
  {
    FitsUpTo(w, s, ifids, |w|)
  }

  lemma FitsNext(w: Weights, s: nat, ifids: nat -> nat, n: nat)
    requires ValidWeights(w) && s < |w|
    ensures FitsUpTo(w, s, ifids, n + 1) <==> FitsUpTo(w, s, ifids, n) && AllFit(Unbounded(w, s, ifids, n + 1).hops)
  {
    hide Unbounded, AllFit;
  }

  lemma FitsLast(w: Weights, s: nat, ifids: nat -> nat, n: nat)
    requires ValidWeights(w) && s < |w| && FitsUpTo(w, s, ifids, n)
    ensures AllFit(Unbounded(w, s, ifids, n).hops)
  {
  }

  // ----- how it ends -----

  /** Routers other than s that are marked. */
  predicate Marked(seen: set<nat>, s: nat, vis: seq<bool>) {
    forall k :: k in seen ==> k < |vis| && k != s && vis[k]
  }

  lemma NoneMarked(s: nat, vis: seq<bool>)
    ensures Marked({}, s, vis)
  {
  }

  lemma MarkedStay(seen: set<nat>, s: nat, vis: seq<bool>, u: nat)
    requires Marked(seen, s, vis) && u < |vis|
    ensures Marked(seen, s, vis[u := true])
    ensures u != s && !vis[u] ==> Marked(seen + {u}, s, vis[u := true]) && |seen + {u}| == |seen| + 1
  {
  }

  lemma MarkedFit(seen: set<nat>, s: nat, vis: seq<bool>)
    requires Marked(seen, s, vis) && s < |vis|
    ensures |seen| < |vis|
  {
    SizeBelow(|vis|, seen + {s});
  }

  lemma {:induction false} SizeBelow(n: nat, seen: set<nat>)
    requires forall i :: i in seen ==> i < n
    ensures |seen| <= n
  {
    if n > 0 {
      SizeBelow(n - 1, seen - {n - 1});
    } else {
      assert seen == {};
    }
  }

  /** After n rounds there is no candidate left, or n routers are marked. */
  lemma {:induction false} EachRoundMarks(w: Weights, s: nat, ifids: nat -> nat, n: nat) returns (seen: set<nat>)
    requires ValidWeights(w) && s < |w|
    ensures var r := Unbounded(w, s, ifids, n);
            Marked(seen, s, r.vis) && (|seen| == n || forall k: nat :: !Candidate(r, k))
  {
    hide CostInv, HopInv, Pick, NextRound, Started, Round, RoundOfHops, FromOffers;
    if n == 0 {
      seen := {};
    } else {
      var r := Unbounded(w, s, ifids, n - 1);
      var u := Pick(r, ifids, |w|);
      seen := EachRoundMarks(w, s, ifids, n - 1);
      UnboundedKeeps(w, s, ifids, n - 1);
      ARound(w, s, ifids, r);
      MarkedStay(seen, s, r.vis, u);
      if exists k: nat :: Candidate(r, k) {
        seen := seen + {u};
      }
    }
  }

  /** One round of the run. */
  lemma ARound(w: Weights, s: nat, ifids: nat -> nat, r: Rounds)
    requires ValidWeights(w) && Sized(w, s, r) && CostInv(w, s, r) && HopInv(w, s, r) && FromOffers(w, s, r)
    ensures var u := Pick(r, ifids, |w|);
            var r' := NextRound(w, s, r, u);
            && CostInv(w, s, r') && HopInv(w, s, r') && FromOffers(w, s, r')
            && r'.dist[s] == 0 && r'.vis == r.vis[u := true]
            && ((forall k: nat :: !Candidate(r, k)) ==> forall k: nat :: !Candidate(r', k))
            && ((exists k: nat :: Candidate(r, k)) ==> u != s && !r.vis[u])
  {
    hide CostInv, HopInv, Pick, FromOffers, NextRound, RoundOfHops;
    var u := Pick(r, ifids, |w|);
    var r' := NextRound(w, s, r, u);
    PickedOnce(r, ifids, u);
    PickedIsChosen(r, ifids, u);
    RoundKeepsCost(w, s, r, u, r');
    RoundKeepsHops(w, s, r, u, r');
    RoundKeepsOffers(w, s, r, u, r');
    if exists k: nat :: Candidate(r, k) {
      ChosenIsFinal(w, s, r, u);
    }
  }

  lemma {:induction false} UnboundedKeeps(w: Weights, s: nat, ifids: nat -> nat, n: nat)
    requires ValidWeights(w) && s < |w|
    ensures var r := Unbounded(w, s, ifids, n);
            CostInv(w, s, r) && HopInv(w, s, r) && FromOffers(w, s, r) && (n > 0 ==> r.dist[s] == 0)
  {
    hide CostInv, HopInv, Pick, NextRound, Started, Round, RoundOfHops;
    if n == 0 {
      StartGood(w, s, Started(w, s));
    } else {
      UnboundedKeeps(w, s, ifids, n - 1);
      ARound(w, s, ifids, Unbounded(w, s, ifids, n - 1));
    }
  }

  /** The last state has the true costs and exactly the first hops. */
  lemma UnboundedExact(w: Weights, s: nat, ifids: nat -> nat)
    requires ValidWeights(w) && s < |w|
    ensures Exact(w, s, Unbounded(w, s, ifids, |w|))
  {
    hide CostInv, HopInv, FromOffers, Unbounded, Exact, Candidate;
    var r := Unbounded(w, s, ifids, |w|);
    UnboundedKeeps(w, s, ifids, |w|);
    var seen := EachRoundMarks(w, s, ifids, |w|);
    MarkedFit(seen, s, r.vis);
    ExactCosts(w, s, r);
  }

  // ----- when it fits -----

  function Neighbours(w: Weights, s: nat): set<nat>
    requires ValidWeights(w) && s < |w|
  {
    set h | 0 <= h < |w| && w[s][h] < MAX_METRIC
  }

  /** Router h starts the direct link to j, or a cheapest walk to a router next to j, at x in all. */
  ghost predicate Offers(w: Weights, s: nat, j: nat, x: nat, h: nat)
    requires ValidWeights(w) && s < |w| && j < |w|
  {
    && h < |w| && w[s][h] < MAX_METRIC
    && ((h == j && w[s][j] == x) || exists v :: OffersBy(w, s, j, x, h, v))
  }

  ghost predicate OffersBy(w: Weights, s: nat, j: nat, x: nat, h: nat, v: nat)
    requires ValidWeights(w) && s < |w| && j < |w|
  {
    v < |w| && v != s && Dist(w, s, v) + w[v][j] == x && FirstHop(w, s, v, h)
  }

  /** Distinct offers to router j at x in all. */
  ghost predicate AreOffers(w: Weights, s: nat, j: nat, x: nat, q: seq<nat>)
    requires ValidWeights(w) && s < |w| && j < |w|
  {
    NoRepeat(q) && forall h :: h in q ==> Offers(w, s, j, x, h)
  }

  /** For no router and no cost are there more offers than entries of an array. */
  ghost predicate Room(w: Weights, s: nat)
    requires ValidWeights(w) && s < |w|
  {
    forall j, x: nat, q :: 0 <= j < |w| && j != s && x <= MAX_METRIC && AreOffers(w, s, j, x, q) ==>
      |q| <= MAX_ECMP_LIMIT
  }

  /** Next hops of a router are offers at its tentative distance. */
  ghost predicate FromOffers(w: Weights, s: nat, r: Rounds)
    requires ValidWeights(w)
  {
    && Sized(w, s, r)
    && forall j, h :: 0 <= j < |w| && j != s && h in r.hops[j] ==> Offers(w, s, j, r.dist[j], h)
  }

  /** What is relaxed from a chosen router are its first hops. */
  lemma RelaxedAreFirst(w: Weights, s: nat, r: Rounds, u: nat, j: nat, h: nat)
    requires ValidWeights(w) && CostInv(w, s, r) && HopInv(w, s, r) && Chosen(r, u) && u < |w|
    requires j < |w| && j != s && j != u && !r.vis[j] && From(s, r, u) + w[u][j] <= r.dist[j] && h in r.hops[u]
    ensures u != s && r.dist[u] == Dist(w, s, u) && FirstHop(w, s, u, h) && w[s][h] < MAX_METRIC
  {
    hide Dist, FirstHop;
    if exists i: nat :: Candidate(r, i) {
      ChosenIsFinal(w, s, r, u);
      ChosenHops(w, s, r, u, h);
    } else {
      NothingLeft(w, s, r, j);
      if u != s && !r.vis[u] {
        NothingLeft(w, s, r, u);
      }
    }
    assert AreNeighbours(w, s, r.hops[u]);
  }

  lemma RoundKeepsOffers(w: Weights, s: nat, r: Rounds, u: nat, r': Rounds)
    requires ValidWeights(w) && CostInv(w, s, r) && HopInv(w, s, r) && FromOffers(w, s, r) && Chosen(r, u) && u < |w|
    requires Round(w, s, r, u, r') && RoundOfHops(w, s, r, u, r')
    ensures FromOffers(w, s, r')
  {
    hide Dist, FirstHop, Chosen, HopInv, CostInv;
    var r1 := r.(vis := r.vis[u := true]);
    forall j, h | 0 <= j < |w| && j != s && h in r'.hops[j]
      ensures Offers(w, s, j, r'.dist[j], h)
    {
      assert r'.hops[j] == RelaxHops(w, s, r1, u, j) && r'.dist[j] == RelaxDist(w, s, r1, u, j);
      if h in r.hops[j] && r'.dist[j] == r.dist[j] {
        assert Offers(w, s, j, r.dist[j], h);
      } else {
        RelaxedAreFirst(w, s, r, u, j, h);
        HopsInside(w, s, r, u, h);
        assert OffersBy(w, s, j, r'.dist[j], h, u);
      }
    }
  }

  lemma HopsInside(w: Weights, s: nat, r: Rounds, j: nat, h: nat)
    requires ValidWeights(w) && HopInv(w, s, r) && j < |w| && h in r.hops[j]
    ensures h < |w|
  {
  }

  /** With room for every list of offers, all lists of all rounds fit, however ties are broken. */
  lemma RoomFits(w: Weights, s: nat, ifids: nat -> nat)
    requires ValidWeights(w) && s < |w| && Room(w, s)
    ensures Fits(w, s, ifids)
  {
    hide Unbounded;
    forall n | 0 <= n <= |w|
      ensures AllFit(Unbounded(w, s, ifids, n).hops)
    {
      var r := Unbounded(w, s, ifids, n);
      UnboundedKeeps(w, s, ifids, n);
      OffersFit(w, s, r);
    }
  }

  lemma DistInRange(w: Weights, s: nat, r: Rounds, j: nat)
    requires ValidWeights(w) && CostInv(w, s, r) && j < |w| && j != s
    ensures r.dist[j] <= MAX_METRIC
  {
  }

  lemma OffersFit(w: Weights, s: nat, r: Rounds)
    requires ValidWeights(w) && CostInv(w, s, r) && HopInv(w, s, r) && FromOffers(w, s, r) && Room(w, s)
    ensures AllFit(r.hops)
  {
    hide Dist, Offers, FirstHop, Offered, NoRepeat, AreNeighbours, CostInv;
    forall j | 0 <= j < |w|
      ensures |r.hops[j]| <= MAX_ECMP_LIMIT
    {
      if j != s {
        DistInRange(w, s, r, j);
        assert AreOffers(w, s, j, r.dist[j], r.hops[j]);
      }
    }
  }

  /** Distinct members of a set are no more than it has. */
  lemma {:induction false} NoRepeatFits(q: seq<nat>, all: set<nat>)
    requires NoRepeat(q) && forall h :: h in q ==> h in all
    ensures |q| <= |all|
    decreases |q|
  {
    if q != [] {
      var last := q[|q| - 1];
      assert forall h :: h in q[..|q| - 1] ==> h in all - {last};
      NoRepeatFits(q[..|q| - 1], all - {last});
    }
  }

  /** A router with few neighbours has room. */
  lemma FewNeighboursRoom(w: Weights, s: nat)
    requires ValidWeights(w) && s < |w| && |Neighbours(w, s)| <= MAX_ECMP_LIMIT
    ensures Room(w, s)
  {
    hide OffersBy;
    forall j, x: nat, q | 0 <= j < |w| && j != s && x <= MAX_METRIC && AreOffers(w, s, j, x, q)
      ensures |q| <= MAX_ECMP_LIMIT
    {
      forall h | h in q
        ensures h in Neighbours(w, s)
      {
        assert Offers(w, s, j, x, h);
      }
      NoRepeatFits(q, Neighbours(w, s));
    }
  }

  /** So room or few neighbours are enough. */
  lemma RoomEnough(w: Weights, s: nat, ifids: nat -> nat)
    requires ValidWeights(w) && s < |w|
    ensures Room(w, s) || |Neighbours(w, s)| <= MAX_ECMP_LIMIT ==> Fits(w, s, ifids)
  {
    hide Room, Fits, Neighbours;
    if |Neighbours(w, s)| <= MAX_ECMP_LIMIT {
      FewNeighboursRoom(w, s);
    }
    if Room(w, s) {
      RoomFits(w, s, ifids);
    }
  }

  /** A router with more first hops than entries rules out that the run fits. */
  lemma FirstHopsFit(w: Weights, s: nat, ifids: nat -> nat, j: nat, q: seq<nat>)
    requires ValidWeights(w) && s < |w| && Fits(w, s, ifids)
    requires j < |w| && j != s && Dist(w, s, j) < MAX_METRIC
    requires NoRepeat(q) && forall h :: h in q ==> FirstHop(w, s, j, h)
    ensures |q| <= MAX_ECMP_LIMIT
  {
    hide Dist, FirstHop, Unbounded, FitsUpTo;
    FitsLast(w, s, ifids, |w|);
    UnboundedExact(w, s, ifids);
    var list := Unbounded(w, s, ifids, |w|).hops[j];
    forall h | h in q
      ensures h in Members(list)
    {
      assert FirstHop(w, s, j, h);
    }
    NoRepeatFits(q, Members(list));
    MembersSize(list);
  }

  lemma {:induction false} MembersSize(list: seq<nat>)
    ensures |Members(list)| <= |list|
    decreases |list|
  {
    if list == [] {
      assert Members(list) == {};
    } else {
      MembersSize(list[1..]);
      assert Members(list) == {list[0]} + Members(list[1..]);
    }
  }

  // ----- a star, which always fits, and a diamond, which never does -----

  /** Router 0 is joined to each of n others at metric 1. */
  function Star(n: nat): (w: Weights)
    ensures ValidWeights(w) && |w| == n + 1
    ensures forall i, j :: 0 <= i <= n && 0 <= j <= n ==> w[i][j] == if i == 0 && j > 0 then 1 else MAX_METRIC
  {
    seq(n + 1,
        i requires 0 <= i <= n => seq(n + 1, j requires 0 <= j <= n => if i == 0 && j > 0 then 1 else MAX_METRIC))
  }

  /** The middle of a star has room, however many neighbours it has. */
  lemma StarHasRoom(n: nat)
    ensures Room(Star(n), 0) && |Neighbours(Star(n), 0)| == n
  {
    hide Dist, FirstHop;
    var w := Star(n);
    forall j, x: nat, q | 0 <= j < |w| && j != 0 && x <= MAX_METRIC && AreOffers(w, 0, j, x, q)
      ensures |q| <= MAX_ECMP_LIMIT
    {
      forall h | h in q
        ensures h == j
      {
        if v :| OffersBy(w, 0, j, x, h, v) {
          DistPositive(w, 0, v);
        }
        assert Offers(w, 0, j, x, h);
      }
      NoRepeatFits(q, {j});
    }
    assert Neighbours(w, 0) == OneTo(n);
  }

  function OneTo(n: nat): (r: set<nat>)
    ensures |r| == n && forall i :: i in r <==> 1 <= i <= n
  {
    if n == 0 then {} else OneTo(n - 1) + {n}
  }

  /** Router 0 is joined to routers 1 to 5, and each of those to router 6, all at metric 1. */
  function Diamond(): (w: Weights)
    ensures ValidWeights(w) && |w| == 7
    ensures forall i, j :: 0 <= i < 7 && 0 <= j < 7 ==>
      w[i][j] == if (i == 0 && 1 <= j <= 5) || (1 <= i <= 5 && j == 6) then 1 else MAX_METRIC
  {
    seq(7, i requires 0 <= i < 7 =>
      seq(7, j requires 0 <= j < 7 => if (i == 0 && 1 <= j <= 5) || (1 <= i <= 5 && j == 6) then 1 else MAX_METRIC))
  }

  /** In the diamond, router 6 is two away from router 0, by five first hops. */
  lemma DiamondHasFive(h: nat)
    requires 1 <= h <= 5
    ensures Dist(Diamond(), 0, 6) == 2 && FirstHop(Diamond(), 0, 6, h)
  {
    hide Dist, Diamond;
    var w := Diamond();
    DistSelf(w, 0);
    DistSelf(w, h);
    DistStep(w, 0, 0, h);
    DistStep(w, 0, h, 6);
    DistStep(w, h, h, 6);
    DistPositive(w, h, 6);
    var b := DistLast(w, 0, 6);
    if b != 0 {
      DistPositive(w, 0, b);
    }
  }

  /** So the arrays are too small for it, however ties are broken. */
  lemma DiamondOverflows(ifids: nat -> nat)
    ensures !Fits(Diamond(), 0, ifids)
  {
    hide Dist, FirstHop, Diamond, Fits;
    if Fits(Diamond(), 0, ifids) {
      var q := [1, 2, 3, 4, 5];
      forall h | h in q
        ensures Dist(Diamond(), 0, 6) == 2 && FirstHop(Diamond(), 0, 6, h)
      {
        DiamondHasFive(h);
      }
      assert 1 in q;
      FirstHopsFit(Diamond(), 0, ifids, 6, q);
    }
  }
}

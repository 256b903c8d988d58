/**
  Shortest paths with equal-cost multipath over the matrix of an area (ddc/ddc.c).
 */
module Ddc {
  import opened Sequences
  import opened ShortestPaths
  import opened DijkstraRounds
  import opened UnboundedRounds

  /** A matrix cell; `nexthop` holds the nexthop_count entries in use, `linkIndex` is -1 without a link. */
  datatype NetNode = NetNode(metric: nat, pathCost: nat, nexthop: seq<nat>, nextHop: nat, linkIndex: int)

  /** equal_path_copy. `ok` says that every write fell inside the MAX_ECMP_LIMIT entries of the array. */
  method EqualPathCopy(w: seq<nat>, dst: seq<nat>) returns (r: seq<nat>, ok: bool)
    ensures r == Merge(dst, w) && dst <= r
    ensures forall h :: h in r <==> h in dst || h in w
    ensures PickedFrom(w, r[|dst|..])
    ensures ok <==> |r| <= MAX_ECMP_LIMIT || r == dst
  {
    hide PickedFrom;
    r, ok := dst, true;
    var origin := |dst|;
    var i, index := 0, 0;
    while i < origin + |w|
      invariant 0 <= i <= origin + |w|
      invariant if i <= origin then index == i && r == dst else index == |r| && r == dst + Fresh(dst, w[..i - origin])
      invariant ok <==> |r| <= MAX_ECMP_LIMIT || r == dst
    {
      if i >= origin {
        var j, same := 0, false;
        while j < origin
          invariant 0 <= j <= origin
          invariant same <==> w[i - origin] in dst[..j]
        {
          if w[i - origin] == dst[j] {
            same := true;
          }
          j := j + 1;
        }
        assert w[..i - origin + 1][..i - origin] == w[..i - origin];
        if same {
          index := index - 1;
        } else {
          ok := ok && index < MAX_ECMP_LIMIT;
          r := r + [w[i - origin]];
        }
      }
      i, index := i + 1, index + 1;
    }
    assert w[..|w|] == w;
    FreshInOrder(dst, w);
  }

  /** The added next hops come in the order in which they were offered. */
  lemma {:induction false} FreshInOrder(dst: seq<nat>, q: seq<nat>)
    ensures PickedFrom(q, Fresh(dst, q))
    decreases |q|
  {
    hide PickedFrom;
    if q == [] {
      NothingPicked(q);
    } else {
      var n := |q| - 1;
      FreshInOrder(dst, q[..n]);
      assert q == q[..n] + [q[n]];
      OneMorePicked(q[..n], Fresh(dst, q[..n]), q[n]);
    }
  }

  /** nexthop_copy, which notices the limit only after having written past it. */
  method NexthopCopy(w: seq<nat>) returns (r: seq<nat>, ok: bool)
    ensures ok <==> |w| <= MAX_ECMP_LIMIT
    ensures ok ==> r == w
    ensures r <= w
  {
    r, ok := [], true;
    var i := 0;
    while i < |w|
      invariant 0 <= i <= |w| && r == w[..i] && i <= MAX_ECMP_LIMIT && ok
    {
      ok := i < MAX_ECMP_LIMIT;
      r := r + [w[i]];
      if |r| > MAX_ECMP_LIMIT {
        return;
      }
      i := i + 1;
    }
  }

  /**
    min_cost, over row sid of the matrix. `ifids(i)` stands for the interface id that the query for the link towards
    router i yields; ties go to the smaller one, and then to the smaller index.
   */
  method MinCost(v: array<bool>, d: array<nat>, matrix: array2<NetNode>, sid: nat, ifids: nat -> nat) returns (u: nat)
    requires Square(matrix) && sid < matrix.Length0 == v.Length == d.Length
    requires forall h :: ifids(h) < MAX_INTERFACE
    ensures Picked(RowState(d[..], v[..], matrix, sid), ifids, u)
    ensures u < v.Length
    ensures forall i :: 0 <= i < v.Length && i != u && !v[i] && 0 < d[i] < MAX_METRIC ==>
      && !v[u] && 0 < d[u] <= d[i]
      && var mine, other := matrix[sid, u].nexthop, matrix[sid, i].nexthop;
         d[u] == d[i] && mine != [] && other != [] ==>
           ifids(mine[0]) < ifids(other[0]) || (ifids(mine[0]) == ifids(other[0]) && u < i)
  {
    u := 0;
    var temp, minIf := MAX_METRIC - 1, MAX_INTERFACE;
    ghost var r, found := RowState(d[..], v[..], matrix, sid), false;
    var i := 0;
    while i < v.Length
      invariant 0 <= i <= v.Length && u < v.Length
      invariant if found then u < i && Candidate(r, u) && temp == d[u] && minIf == IfidOf(r, ifids, u)
                else u == 0 && temp == MAX_METRIC - 1 && minIf == MAX_INTERFACE
      invariant forall k: nat :: k < i && Candidate(r, k) ==>
        found && !Closer(r, ifids, k, u) && (k < u ==> Closer(r, ifids, u, k))
    {
      if !v[i] && d[i] <= temp && d[i] != 0 {
        var hops := matrix[sid, i].nexthop;
        var curIf := ifids(if hops == [] then 0 else hops[0]);
        assert Candidate(r, i) && curIf == IfidOf(r, ifids, i);
        if d[i] == temp {
          if minIf > curIf {
            temp, minIf, u := d[i], curIf, i;
            found := true;
          }
        } else {
          temp, minIf, u := d[i], curIf, i;
          found := true;
        }
      }
      i := i + 1;
    }
    assert forall k :: 0 <= k < v.Length && !v[k] && 0 < d[k] < MAX_METRIC ==> Candidate(r, k);
  }

  predicate Square(matrix: array2<NetNode>) {
    matrix.Length0 == matrix.Length1
  }

  /** `w` lists the metrics of the matrix. */
  ghost predicate HasMetrics(matrix: array2<NetNode>, w: Weights)
    requires Square(matrix)
    reads matrix
  {
    && |w| == matrix.Length0 && (forall i :: 0 <= i < |w| ==> |w[i]| == |w|)
    && (forall i, j :: 0 <= i < |w| && 0 <= j < |w| ==> w[i][j] == matrix[i, j].metric)
  }

  /** Row s of the matrix with given distances and marks. */
  ghost function RowState(dist: seq<nat>, vis: seq<bool>, matrix: array2<NetNode>, s: nat): (r: Rounds)
    requires Square(matrix) && s < matrix.Length0
    reads matrix
    ensures r.dist == dist && r.vis == vis && |r.hops| == matrix.Length0
    ensures forall j :: 0 <= j < |r.hops| ==> r.hops[j] == matrix[s, j].nexthop
  {
    Rounds(dist, vis, seq(matrix.Length0, j requires 0 <= j < matrix.Length0 reads matrix => matrix[s, j].nexthop))
  }

  /** Only the next hops of row s have changed since then. */
  twostate predicate OnlyHopsOf(matrix: array2<NetNode>, s: nat)
    requires Square(matrix) && s < matrix.Length0
    reads matrix
  {
    forall i, j :: 0 <= i < matrix.Length0 && 0 <= j < matrix.Length0 ==>
      if i == s then matrix[i, j] == old(matrix[i, j]).(nexthop := matrix[i, j].nexthop)
      else matrix[i, j] == old(matrix[i, j])
  }

  /** Row state r' is r relaxed from w, with next hops included if all writes were in bounds. From lists that fit, they
      were exactly if the relaxed lists fit. */
  ghost predicate Relaxed(ws: Weights, s: nat, r: Rounds, w: nat, r': Rounds, ok: bool)
    requires ValidWeights(ws) && Sized(ws, s, r) && Sized(ws, s, r') && w < |ws|
  {
    && r'.vis == r.vis
    && (forall j :: 0 <= j < |ws| ==> r'.dist[j] == RelaxDist(ws, s, r, w, j))
    && (ok ==> forall j :: 0 <= j < |ws| ==> r'.hops[j] == RelaxHops(ws, s, r, w, j))
    && (AllFit(r.hops) ==> (ok <==> forall j :: 0 <= j < |ws| ==> |RelaxHops(ws, s, r, w, j)| <= MAX_ECMP_LIMIT))
  }

  /** The two copying branches of the inner loop, for an offer `sum` no worse than `best`. */
  method JoinHops(sum: nat, best: nat, w: seq<nat>, dst: seq<nat>) returns (hops: seq<nat>, ok: bool)
    requires sum <= best
    ensures ok ==> hops == if sum < best then w else Merge(dst, w)
    ensures var all := if sum < best then w else Merge(dst, w);
            ok <==> |all| <= MAX_ECMP_LIMIT || (sum == best && all == dst)
  {
    if sum < best {
      hops, ok := NexthopCopy(w);
    } else {
      hops, ok := EqualPathCopy(w, dst);
    }
  }

  /** Row state b is a with router j relaxed from w over a link of that metric. */
  ghost predicate OneRelaxed(a: Rounds, b: Rounds, s: nat, w: nat, j: nat, metric: nat, ok: bool)
    requires j < |a.dist| == |b.dist| == |a.hops| == |b.hops| == |a.vis| && w < |a.dist|
  {
    && b.vis == a.vis
    && (forall k :: 0 <= k < |a.dist| && k != j ==> b.dist[k] == a.dist[k] && b.hops[k] == a.hops[k])
    && var sum, best := a.dist[w] + metric, a.dist[j];
       if j == s then ok && b.dist[j] == 0 && b.hops[j] == a.hops[j]
       else if a.vis[j] || sum > best then ok && b.dist[j] == best && b.hops[j] == a.hops[j]
       else
         var joined := if sum < best then a.hops[w] else Merge(a.hops[j], a.hops[w]);
         && b.dist[j] == sum && (ok ==> b.hops[j] == joined)
         && (ok <==> |joined| <= MAX_ECMP_LIMIT || (sum == best && joined == a.hops[j]))
  }

  /** One turn of the inner loop of dijkstra, for router j. */
  method RelaxOne(s: nat, w: nat, j: nat, distance: array<nat>, visite: array<bool>, matrix: array2<NetNode>)
    returns (ok: bool)
    requires Square(matrix) && s < matrix.Length0 == distance.Length == visite.Length && w < matrix.Length0
    requires j < matrix.Length0
    modifies distance, matrix
    ensures forall i, k :: 0 <= i < matrix.Length0 && 0 <= k < matrix.Length0 && (i, k) != (s, j) ==>
      matrix[i, k] == old(matrix[i, k])
    ensures matrix[s, j] == old(matrix[s, j]).(nexthop := matrix[s, j].nexthop)
    ensures OneRelaxed(old(RowState(distance[..], visite[..], matrix, s)),
                       RowState(distance[..], visite[..], matrix, s), s, w, j, old(matrix[w, j].metric), ok)
  {
    hide Merge;
    ok := true;
    if j == s {
      distance[j] := 0;
      return;
    }
    if !visite[j] {
      var sum := distance[w] + matrix[w, j].metric;
      if sum <= distance[j] {
        var hops;
        hops, ok := JoinHops(sum, distance[j], matrix[s, w].nexthop, matrix[s, j].nexthop);
        distance[j] := sum;
        matrix[s, j] := matrix[s, j].(nexthop := hops);
      }
    }
  }

  lemma FitsAt(hops: seq<seq<nat>>, j: nat)
    requires j < |hops|
    ensures AllFit(hops) ==> |hops[j]| <= MAX_ECMP_LIMIT
  {
  }

  /** What relaxing one router from `w` comes to, for an offer `sum`. */
  lemma RelaxCase(ws: Weights, s: nat, r: Rounds, w: nat, j: nat)
    requires ValidWeights(ws) && Sized(ws, s, r) && w < |ws| && j < |ws|
    ensures var sum := From(s, r, w) + ws[w][j];
            if j == s then RelaxDist(ws, s, r, w, j) == 0 && RelaxHops(ws, s, r, w, j) == r.hops[j]
            else if r.vis[j] || sum > r.dist[j] then
              RelaxDist(ws, s, r, w, j) == r.dist[j] && RelaxHops(ws, s, r, w, j) == r.hops[j]
            else RelaxDist(ws, s, r, w, j) == sum
                 && RelaxHops(ws, s, r, w, j) == if sum < r.dist[j] then r.hops[w] else Merge(r.hops[j], r.hops[w])
  {
  }

  /** Halfway through the inner loop: routers below j are relaxed from w, the others as they were. */
  ghost predicate RelaxStage(ws: Weights, s: nat, r: Rounds, w: nat, cur: Rounds, ok: bool, j: nat)
    requires ValidWeights(ws) && Sized(ws, s, r) && w < |ws|
  {
    && Sized(ws, s, cur) && cur.vis == r.vis && cur.hops[w] == r.hops[w] && j <= |ws|
    && cur.dist[w] == (if w < j || w != s then From(s, r, w) else r.dist[w])
    && (forall k :: 0 <= k < j ==> cur.dist[k] == RelaxDist(ws, s, r, w, k))
    && (forall k :: j <= k < |ws| ==> cur.dist[k] == r.dist[k] && cur.hops[k] == r.hops[k])
    && (ok ==> forall k :: 0 <= k < j ==> cur.hops[k] == RelaxHops(ws, s, r, w, k))
    && (AllFit(r.hops) ==> (ok <==> forall k :: 0 <= k < j ==> |RelaxHops(ws, s, r, w, k)| <= MAX_ECMP_LIMIT))
  }

  lemma RelaxStart(ws: Weights, s: nat, r: Rounds, w: nat)
    requires ValidWeights(ws) && Sized(ws, s, r) && w < |ws|
    ensures RelaxStage(ws, s, r, w, r, true, 0)
  {
  }

  lemma RelaxNext(ws: Weights, s: nat, r: Rounds, w: nat, cur: Rounds, ok: bool, j: nat, next: Rounds, fits: bool)
    requires ValidWeights(ws) && Sized(ws, s, r) && w < |ws| && r.vis[w] && (w == s ==> w == 0)
    requires RelaxStage(ws, s, r, w, cur, ok, j) && j < |ws| && Sized(ws, s, next)
    requires OneRelaxed(cur, next, s, w, j, ws[w][j], fits)
    ensures RelaxStage(ws, s, r, w, next, ok && fits, j + 1)
  {
    hide RelaxDist, RelaxHops, AllFit, Merge;
    RelaxCase(ws, s, r, w, j);
    FitsAt(r.hops, j);
  }

  lemma RelaxEnd(ws: Weights, s: nat, r: Rounds, w: nat, cur: Rounds, ok: bool)
    requires ValidWeights(ws) && Sized(ws, s, r) && w < |ws| && RelaxStage(ws, s, r, w, cur, ok, |ws|)
    ensures Relaxed(ws, s, r, w, cur, ok)
  {
    hide RelaxDist, RelaxHops, AllFit;
  }

  /** The inner loop of dijkstra: relax every router from w. */
  method Relax(s: nat, w: nat, distance: array<nat>, visite: array<bool>, matrix: array2<NetNode>, ghost ws: Weights)
    returns (ok: bool)
    requires Square(matrix) && s < matrix.Length0 == distance.Length == visite.Length && w < matrix.Length0
    requires ValidWeights(ws) && HasMetrics(matrix, ws) && visite[w]
    requires w == s ==> w == 0
    modifies distance, matrix
    ensures OnlyHopsOf(matrix, s) && HasMetrics(matrix, ws)
    ensures Relaxed(ws, s, old(RowState(distance[..], visite[..], matrix, s)), w,
                    RowState(distance[..], visite[..], matrix, s), ok)
  {
    hide Merge, RelaxStage, OneRelaxed, Relaxed, ValidWeights;
    ok := true;
    ghost var r := RowState(distance[..], visite[..], matrix, s);
    RelaxStart(ws, s, r, w);
    var j := 0;
    while j < distance.Length
      invariant 0 <= j <= distance.Length && OnlyHopsOf(matrix, s) && HasMetrics(matrix, ws)
      invariant RelaxStage(ws, s, r, w, RowState(distance[..], visite[..], matrix, s), ok, j)
    {
      ghost var cur := RowState(distance[..], visite[..], matrix, s);
      assert matrix[w, j].metric == ws[w][j];
      var fits := RelaxOne(s, w, j, distance, visite, matrix);
      RelaxNext(ws, s, r, w, cur, ok, j, RowState(distance[..], visite[..], matrix, s), fits);
      ok := ok && fits;
      j := j + 1;
    }
    RelaxEnd(ws, s, r, w, RowState(distance[..], visite[..], matrix, s), ok);
  }

  /** Row s as init_lidb_info leaves it: the direct links are the next hops. */
  predicate FreshRow(matrix: array2<NetNode>, s: nat)
    requires Square(matrix) && s < matrix.Length0
    reads matrix
  {
    forall j :: 0 <= j < matrix.Length0 ==> matrix[s, j].nexthop == if matrix[s, j].metric < MAX_METRIC then [j] else []
  }

  /** Row s as dijkstra leaves it: true costs, exact next hops, one of them chosen. */
  ghost predicate SolvedRow(matrix: array2<NetNode>, s: nat, w: Weights)
    requires Square(matrix) && s < matrix.Length0 == |w| && ValidWeights(w)
    reads matrix
  {
    && (forall j :: 0 <= j < |w| ==>
          var node := matrix[s, j];
          && node.pathCost == Dist(w, s, j) && NoRepeat(node.nexthop)
          && node.nextHop == if node.nexthop == [] then s else node.nexthop[0])
    && (forall j, h :: 0 <= j < |w| && j != s && matrix[s, j].pathCost < MAX_METRIC ==>
          (h in matrix[s, j].nexthop <==> FirstHop(w, s, j, h)))
  }

  /** One whole round: choose, mark, relax. */
  lemma AfterRound(w: Weights, s: nat, r: Rounds, u: nat, r': Rounds, fits: bool)
    requires ValidWeights(w) && CostInv(w, s, r) && Chosen(r, u) && u < |w| && Sized(w, s, r')
    requires Relaxed(w, s, r.(vis := r.vis[u := true]), u, r', fits)
    ensures CostInv(w, s, r') && r'.dist[s] == 0 && r'.vis == r.vis[u := true]
    ensures (forall k: nat :: !Candidate(r, k)) ==> forall k: nat :: !Candidate(r', k)
    ensures (forall k: nat :: !Candidate(r, k)) || (u != s && !r.vis[u])
  {
    RoundKeepsCost(w, s, r, u, r');
  }

  /** From lists that fit, the round writes inside the arrays exactly if it leaves the lists of the unbounded one. */
  lemma AsUnbounded(w: Weights, s: nat, r: Rounds, u: nat, r': Rounds, fits: bool)
    requires ValidWeights(w) && Sized(w, s, r) && Sized(w, s, r') && u < |w| && AllFit(r.hops)
    requires Relaxed(w, s, r.(vis := r.vis[u := true]), u, r', fits)
    ensures fits <==> AllFit(NextRound(w, s, r, u).hops)
    ensures fits ==> r' == NextRound(w, s, r, u)
  {
    hide RelaxDist, RelaxHops;
    var r1, next := r.(vis := r.vis[u := true]), NextRound(w, s, r, u);
    if fits {
      assert r'.dist == next.dist && r'.hops == next.hops;
    }
    assert AllFit(next.hops) <==> forall j :: 0 <= j < |w| ==> |RelaxHops(w, s, r1, u, j)| <= MAX_ECMP_LIMIT;
  }

  /** Where round n stands: distances sound; as long as every write fitted, which is as long as the unbounded lists
      fit, the row is that of the unbounded run. */
  ghost predicate Standing(w: Weights, s: nat, ifids: nat -> nat, r: Rounds, n: nat, ok: bool)
    requires ValidWeights(w)
  {
    && CostInv(w, s, r)
    && (ok <==> FitsUpTo(w, s, ifids, n))
    && (ok ==> r == Unbounded(w, s, ifids, n))
  }

  lemma StillStanding(w: Weights, s: nat, ifids: nat -> nat, r: Rounds, n: nat, ok: bool, u: nat, r': Rounds,
                      fits: bool)
    requires ValidWeights(w) && Sized(w, s, r) && Standing(w, s, ifids, r, n, ok)
    requires Picked(r, ifids, u) && u < |w| && Sized(w, s, r')
    requires Relaxed(w, s, r.(vis := r.vis[u := true]), u, r', fits)
    ensures Standing(w, s, ifids, r', n + 1, ok && fits) && r'.dist[s] == 0 && r'.vis == r.vis[u := true]
    ensures (forall k: nat :: !Candidate(r, k)) ==> forall k: nat :: !Candidate(r', k)
    ensures (forall k: nat :: !Candidate(r, k)) || (u != s && !r.vis[u])
  {
    hide CostInv, Relaxed, AllFit, FitsUpTo, Pick, Picked, NextRound, Chosen, Candidate;
    PickedIsChosen(r, ifids, u);
    AfterRound(w, s, r, u, r', fits);
    FitsNext(w, s, ifids, n);
    if ok {
      FitsLast(w, s, ifids, n);
      PickedOnce(r, ifids, u);
      AsUnbounded(w, s, r, u, r', fits);
    }
  }

  lemma ChosenSelf(w: Weights, s: nat, r: Rounds, u: nat)
    requires ValidWeights(w) && CostInv(w, s, r) && Chosen(r, u)
    ensures u == s ==> u == 0
  {
  }

  /** One turn of the outer loop of dijkstra. */
  method OneRound(s: nat, distance: array<nat>, visite: array<bool>, matrix: array2<NetNode>, ifids: nat -> nat,
                  ghost w: Weights)
    returns (fits: bool, ghost u: nat)
    requires Square(matrix) && s < matrix.Length0 == distance.Length == visite.Length
    requires ValidWeights(w) && HasMetrics(matrix, w) && CostInv(w, s, RowState(distance[..], visite[..], matrix, s))
    requires forall h :: ifids(h) < MAX_INTERFACE
    modifies distance, visite, matrix
    ensures OnlyHopsOf(matrix, s) && HasMetrics(matrix, w) && u < |w|
    ensures Picked(old(RowState(distance[..], visite[..], matrix, s)), ifids, u)
    ensures Relaxed(w, s, old(RowState(distance[..], visite[..], matrix, s)).(vis := old(visite[..])[u := true]), u,
                    RowState(distance[..], visite[..], matrix, s), fits)
  {
    hide CostInv, Relaxed, RelaxDist, RelaxHops, Chosen, Candidate, Picked;
    ghost var r := RowState(distance[..], visite[..], matrix, s);
    var v := MinCost(visite, distance, matrix, s, ifids);
    u := v;
    PickedIsChosen(r, ifids, u);
    ChosenSelf(w, s, r, u);
    visite[v] := true;
    assert RowState(distance[..], visite[..], matrix, s) == r.(vis := r.vis[u := true]);
    fits := Relax(s, v, distance, visite, matrix, w);
  }

  lemma StartStanding(w: Weights, s: nat, ifids: nat -> nat, r: Rounds)
    requires ValidWeights(w) && s < |w| && Starts(w, s, r)
    ensures Standing(w, s, ifids, r, 0, true)
  {
    StartGood(w, s, r);
    var r0 := Started(w, s);
    assert r.dist == r0.dist && r.vis == r0.vis && r.hops == r0.hops;
  }

  lemma StandingCosts(w: Weights, s: nat, ifids: nat -> nat, r: Rounds, n: nat, ok: bool)
    requires ValidWeights(w) && Standing(w, s, ifids, r, n, ok)
    ensures CostInv(w, s, r)
  {
  }

  lemma EndStanding(w: Weights, s: nat, ifids: nat -> nat, r: Rounds, ok: bool)
    requires ValidWeights(w) && Standing(w, s, ifids, r, |w|, ok)
    requires s < |r.dist| && r.dist[s] == 0 && !exists i: nat :: Candidate(r, i)
    ensures |r.dist| == |w| && s < |w| && forall j :: 0 <= j < |w| ==> r.dist[j] == Dist(w, s, j)
    ensures ok <==> Fits(w, s, ifids)
    ensures ok ==> Exact(w, s, r) && AllFit(r.hops)
  {
    hide HopInv, FitsUpTo, Unbounded, Exact, AllFit, Dist;
    ExactCosts(w, s, r);
    if ok {
      UnboundedExact(w, s, ifids);
      FitsLast(w, s, ifids, |w|);
    }
  }

  /** The rounds of dijkstra up to the write-back. */
  method RunRounds(s: nat, distance: array<nat>, matrix: array2<NetNode>, ifids: nat -> nat, ghost w: Weights)
    returns (ok: bool)
    requires Square(matrix) && s < matrix.Length0 == distance.Length
    requires ValidWeights(w) && HasMetrics(matrix, w) && FreshRow(matrix, s)
    requires forall j :: 0 <= j < distance.Length ==> distance[j] == matrix[s, j].metric
    requires forall h :: ifids(h) < MAX_INTERFACE
    modifies distance, matrix
    ensures OnlyHopsOf(matrix, s) && HasMetrics(matrix, w)
    ensures ok <==> Fits(w, s, ifids)
    ensures forall j :: 0 <= j < distance.Length ==> distance[j] == Dist(w, s, j)
    ensures ok ==> exists vis :: Exact(w, s, RowState(distance[..], vis, matrix, s))
    ensures ok ==> AllFit(RowState(distance[..], [], matrix, s).hops)
  {
    hide Marked, Standing, AllFit, HopInv, CostInv, Relaxed, RelaxDist, RelaxHops, Chosen, Candidate, Picked, Exact,
      FitsUpTo;
    var total := matrix.Length0;
    var visite := new bool[total](_ => false);
    ok := true;
    ghost var seen: set<nat> := {};
    ghost var r := RowState(distance[..], visite[..], matrix, s);
    StartStanding(w, s, ifids, r);
    NoneMarked(s, r.vis);
    var i := 0;
    while i < total
      invariant 0 <= i <= total && OnlyHopsOf(matrix, s) && HasMetrics(matrix, w)
      invariant r == RowState(distance[..], visite[..], matrix, s)
      invariant Standing(w, s, ifids, r, i, ok) && (i > 0 ==> distance[s] == 0)
      invariant ((forall k: nat :: !Candidate(r, k)) || |seen| == i) && Marked(seen, s, r.vis)
    {
      ghost var before := r;
      StandingCosts(w, s, ifids, r, i, ok);
      var fits, u := OneRound(s, distance, visite, matrix, ifids, w);
      r := RowState(distance[..], visite[..], matrix, s);
      StillStanding(w, s, ifids, before, i, ok, u, r, fits);
      ok := ok && fits;
      MarkedStay(seen, s, before.vis, u);
      if exists k: nat :: Candidate(before, k) {
        seen := seen + {u};
      }
      i := i + 1;
    }
    if exists k: nat :: Candidate(r, k) {
      MarkedFit(seen, s, r.vis);
    }
    EndStanding(w, s, ifids, r, ok);
  }

  /** The first loop of dijkstra. */
  method DirectMetrics(s: nat, matrix: array2<NetNode>) returns (distance: array<nat>)
    requires Square(matrix) && s < matrix.Length0
    ensures fresh(distance) && distance.Length == matrix.Length0
    ensures forall k :: 0 <= k < distance.Length ==> distance[k] == matrix[s, k].metric
  {
    distance := new nat[matrix.Length0];
    var i := 0;
    while i < distance.Length
      invariant 0 <= i <= distance.Length && forall k :: 0 <= k < i ==> distance[k] == matrix[s, k].metric
    {
      distance[i] := matrix[s, i].metric;
      i := i + 1;
    }
  }

  /** The last loop of dijkstra: store the distances and choose one next hop each. */
  method WriteBack(s: nat, distance: array<nat>, matrix: array2<NetNode>)
    requires Square(matrix) && s < matrix.Length0 == distance.Length
    modifies matrix
    ensures forall i, j :: 0 <= i < matrix.Length0 && 0 <= j < matrix.Length0 ==>
      matrix[i, j] == if i != s then old(matrix[i, j]) else
        old(matrix[i, j]).(pathCost := distance[j],
                           nextHop := if old(matrix[i, j]).nexthop != [] then old(matrix[i, j]).nexthop[0] else s)
  {
    var i := 0;
    while i < distance.Length
      invariant 0 <= i <= distance.Length
      invariant forall a, k :: 0 <= a < matrix.Length0 && 0 <= k < matrix.Length0 && !(a == s && k < i) ==>
        matrix[a, k] == old(matrix[a, k])
      invariant forall k :: 0 <= k < i ==>
        matrix[s, k] == old(matrix[s, k]).(
          pathCost := distance[k],
          nextHop := if old(matrix[s, k]).nexthop != [] then old(matrix[s, k]).nexthop[0] else s)
    {
      var node := matrix[s, i];
      matrix[s, i] := node.(pathCost := distance[i], nextHop := if node.nexthop != [] then node.nexthop[0] else s);
      i := i + 1;
    }
  }

  /** dijkstra. `ok` says that no next-hop write fell outside its array, which holds exactly if no list of the run
      with lists of any length is longer than the array. */
  method Dijkstra(s: nat, matrix: array2<NetNode>, ifids: nat -> nat, ghost w: Weights) returns (ok: bool)
    requires Square(matrix) && s < matrix.Length0
    requires ValidWeights(w) && HasMetrics(matrix, w) && FreshRow(matrix, s)
    requires forall h :: ifids(h) < MAX_INTERFACE
    modifies matrix
    ensures HasMetrics(matrix, w)
    ensures forall i, j :: 0 <= i < matrix.Length0 && 0 <= j < matrix.Length0 ==>
      matrix[i, j].linkIndex == old(matrix[i, j]).linkIndex && (i != s ==> matrix[i, j] == old(matrix[i, j]))
    ensures ok <==> Fits(w, s, ifids)
    ensures Room(w, s) || |Neighbours(w, s)| <= MAX_ECMP_LIMIT ==> ok
    ensures ok ==> SolvedRow(matrix, s, w)
    ensures ok ==> forall j :: 0 <= j < matrix.Length0 ==> |matrix[s, j].nexthop| <= MAX_ECMP_LIMIT
  {
    hide Exact, Neighbours, Room, Fits, ValidWeights, SolvedRow;
    RoomEnough(w, s, ifids);
    var distance := DirectMetrics(s, matrix);
    ok := RunRounds(s, distance, matrix, ifids, w);
    ghost var hops := RowState(distance[..], [], matrix, s).hops;
    assert forall vis :: RowState(distance[..], vis, matrix, s) == Rounds(distance[..], vis, hops);
    WriteBack(s, distance, matrix);
    if ok {
      SolvedFromExact(matrix, s, w, distance[..], hops);
    }
  }

  lemma SolvedFromExact(matrix: array2<NetNode>, s: nat, w: Weights, dist: seq<nat>, hops: seq<seq<nat>>)
    requires Square(matrix) && s < matrix.Length0 == |w| == |dist| == |hops| && ValidWeights(w)
    requires exists vis :: Exact(w, s, Rounds(dist, vis, hops))
    requires forall k :: 0 <= k < |w| ==>
      && matrix[s, k].nexthop == hops[k] && matrix[s, k].pathCost == dist[k]
      && matrix[s, k].nextHop == if hops[k] == [] then s else hops[k][0]
    ensures SolvedRow(matrix, s, w)
  {
  }
}

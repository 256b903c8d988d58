/**
  From the router list and link list of an area to its recorded shortest paths:
  init_lidb_info, the run of dijkstra from every router, record_short_path
  (ddc/ddc.c, path_compute_start).
 */
module PathCompute {
  import opened Sequences
  import opened ShortestPaths
  import opened UnboundedRounds
  import opened PathWalks
  import opened Ddc
  import opened Areas

  /** get_index_by_rid. */
  method IndexOf(rid: nat, rids: seq<nat>) returns (r: int)
    requires NoRepeat(rids)
    ensures if rid in rids then 0 <= r < |rids| && rids[r] == rid else r == -1
  {
    var i := 0;
    while i < |rids|
      invariant 0 <= i <= |rids| && rid !in rids[..i]
    {
      if rids[i] == rid {
        return i;
      }
      i := i + 1;
    }
    assert rids[..|rids|] == rids;
    return -1;
  }

  /** A cell without a link, and the cell of link k towards router y. */
  const NO_LINK := NetNode(MAX_METRIC, 0, [], 0, -1)

  function LinkCell(l: LinkInfo, k: nat, y: nat): NetNode {
    NetNode(l.metric, l.metric, if l.metric < MAX_METRIC then [y] else [], 0, k)
  }

  /** Cell (i, j) describes one of the first n links, or none joins i to j. */
  ghost predicate CellOk(rids: seq<nat>, links: seq<LinkInfo>, n: nat, cell: NetNode, i: nat, j: nat)
    requires i < |rids| && j < |rids| && n <= |links|
  {
    if cell.linkIndex == -1 then
      cell == NO_LINK && forall k :: 0 <= k < n && Backbone(links[k]) ==>
          !(links[k].rid == rids[i] && links[k].nrid == rids[j])
    else
      var k := cell.linkIndex;
      && 0 <= k < n && Backbone(links[k]) && links[k].rid == rids[i] && links[k].nrid == rids[j]
      && cell == LinkCell(links[k], k, j)
  }

  ghost predicate MatrixOk(rids: seq<nat>, links: seq<LinkInfo>, n: nat, matrix: array2<NetNode>)
    requires n <= |links|
    reads matrix
  {
    && matrix.Length0 == matrix.Length1 == |rids|
    && (forall i, j :: 0 <= i < |rids| && 0 <= j < |rids| ==> CellOk(rids, links, n, matrix[i, j], i, j))
  }

  /** The matrix of init_lidb_info. */
  method BuildMatrix(rids: seq<nat>, links: seq<LinkInfo>) returns (matrix: array2<NetNode>)
    requires ValidLinks(rids, links)
    ensures fresh(matrix) && MatrixOk(rids, links, |links|, matrix)
  {
    matrix := new NetNode[|rids|, |rids|]((i, j) => NO_LINK);
    var k := 0;
    while k < |links|
      invariant 0 <= k <= |links| && MatrixOk(rids, links, k, matrix)
    {
      if Backbone(links[k]) {
        var x := IndexOf(links[k].rid, rids);
        var y := IndexOf(links[k].nrid, rids);
        matrix[x, y] := LinkCell(links[k], k, y);
      }
      k := k + 1;
    }
  }

  // ----- the matrix as values -----

  ghost function MetricsOf(matrix: array2<NetNode>): (w: Weights)
    requires Square(matrix)
    reads matrix
    ensures HasMetrics(matrix, w)
  {
    seq(matrix.Length0, i requires 0 <= i < matrix.Length0 reads matrix =>
      seq(matrix.Length0, j requires 0 <= j < matrix.Length0 reads matrix => matrix[i, j].metric))
  }

  ghost function HopsOf(matrix: array2<NetNode>): (nh: seq<seq<nat>>)
    requires Square(matrix)
    reads matrix
    ensures |nh| == matrix.Length0 && forall i :: 0 <= i < |nh| ==> |nh[i]| == |nh|
    ensures forall i, j :: 0 <= i < |nh| && 0 <= j < |nh| ==> nh[i][j] == matrix[i, j].nextHop
  {
    seq(matrix.Length0, i requires 0 <= i < matrix.Length0 reads matrix =>
      seq(matrix.Length0, j requires 0 <= j < matrix.Length0 reads matrix => matrix[i, j].nextHop))
  }

  ghost function NumbersOf(matrix: array2<NetNode>): (li: seq<seq<int>>)
    requires Square(matrix)
    reads matrix
    ensures |li| == matrix.Length0 && forall i :: 0 <= i < |li| ==> |li[i]| == |li|
    ensures forall i, j :: 0 <= i < |li| && 0 <= j < |li| ==> li[i][j] == matrix[i, j].linkIndex
  {
    seq(matrix.Length0, i requires 0 <= i < matrix.Length0 reads matrix =>
      seq(matrix.Length0, j requires 0 <= j < matrix.Length0 reads matrix => matrix[i, j].linkIndex))
  }

  /** What init_lidb_info builds is what dijkstra and record_short_path need. */
  lemma MatrixGood(rids: seq<nat>, links: seq<LinkInfo>, matrix: array2<NetNode>)
    requires ValidLinks(rids, links) && MatrixOk(rids, links, |links|, matrix)
    ensures ValidWeights(MetricsOf(matrix)) && Numbered(MetricsOf(matrix), NumbersOf(matrix), EndsOf(rids, links))
    ensures forall s :: 0 <= s < |rids| ==> FreshRow(matrix, s)
  {
    var w, li, ends := MetricsOf(matrix), NumbersOf(matrix), EndsOf(rids, links);
    forall i, j | 0 <= i < |rids| && 0 <= j < |rids|
      ensures 1 <= w[i][j] <= MAX_METRIC && (i == j ==> li[i][j] == -1 && w[i][j] == MAX_METRIC)
      ensures li[i][j] < |ends| && (w[i][j] < MAX_METRIC ==> 0 <= li[i][j])
      ensures 0 <= li[i][j] ==> ends[li[i][j]] == (i, j)
    {
      assert CellOk(rids, links, |links|, matrix[i, j], i, j);
      if matrix[i, j].linkIndex != -1 {
        var l := links[matrix[i, j].linkIndex];
        assert l.rid in rids && l.nrid in rids;
      }
    }
  }

  /** And it describes the links. */
  lemma MatrixDescribes(rids: seq<nat>, links: seq<LinkInfo>, matrix: array2<NetNode>, nh: seq<seq<nat>>)
    requires ValidLinks(rids, links) && MatrixOk(rids, links, |links|, matrix)
    ensures Describes(rids, links, Solved(MetricsOf(matrix), nh, NumbersOf(matrix), EndsOf(rids, links)))
  {
    var w, li := MetricsOf(matrix), NumbersOf(matrix);
    forall i, j | 0 <= i < |rids| && 0 <= j < |rids|
      ensures Pictures(rids, links, w[i][j], li[i][j], i, j)
    {
      assert CellOk(rids, links, |links|, matrix[i, j], i, j);
    }
  }

  /** A router that can be reached has a first hop. */
  lemma SomeFirstHop(w: Weights, s: nat, j: nat) returns (h: nat)
    requires ValidWeights(w) && s < |w| && j < |w| && j != s && Dist(w, s, j) < MAX_METRIC
    ensures FirstHop(w, s, j, h)
  {
    DistIsLeast(w, s, j);
    var p :| IsWalk(w, p, s, j) && Cost(w, p) == Dist(w, s, j);
    h := p[1];
    SecondIsFirstHop(w, s, j, h, p);
  }

  /** With every row solved, the chosen next hops are right. */
  lemma RowsSolved(matrix: array2<NetNode>, w: Weights)
    requires Square(matrix) && HasMetrics(matrix, w) && ValidWeights(w)
    requires forall s :: 0 <= s < |w| ==> SolvedRow(matrix, s, w)
    ensures SolvedHops(w, HopsOf(matrix))
    ensures forall i, j :: 0 <= i < |w| && 0 <= j < |w| ==> matrix[i, j].pathCost == Dist(w, i, j)
  {
    hide Dist, FirstHop;
    forall i, j | 0 <= i < |w| && 0 <= j < |w|
      ensures matrix[i, j].pathCost == Dist(w, i, j)
      ensures i != j && Dist(w, i, j) < MAX_METRIC ==> FirstHop(w, i, j, matrix[i, j].nextHop)
    {
      assert SolvedRow(matrix, i, w);
      if i != j && Dist(w, i, j) < MAX_METRIC {
        var h := SomeFirstHop(w, i, j);
        assert h in matrix[i, j].nexthop;
      }
    }
  }

  /** The interface ids that a run for router s asks for. */
  function IfidsFrom(ifids: (nat, nat) -> nat, s: nat): (from: nat -> nat)
    ensures forall h :: from(h) == ifids(s, h)
  {
    h => ifids(s, h)
  }

  /** No list of a run for one of the first n routers is longer than its array. */
  predicate AllFitUpTo(w: Weights, ifids: (nat, nat) -> nat, n: nat)
    requires ValidWeights(w) && n <= |w|
  {
    forall s :: 0 <= s < n ==> Fits(w, s, IfidsFrom(ifids, s))
  }

  /** In particular there is room where every router has it, or few neighbours. */
  lemma RoomEverywhere(w: Weights, ifids: (nat, nat) -> nat)
    requires ValidWeights(w)
    ensures (forall s :: 0 <= s < |w| ==> Room(w, s) || |Neighbours(w, s)| <= MAX_ECMP_LIMIT) ==>
      AllFitUpTo(w, ifids, |w|)
  {
    hide Room, Neighbours, Fits;
    forall s | 0 <= s < |w|
      ensures Room(w, s) || |Neighbours(w, s)| <= MAX_ECMP_LIMIT ==> Fits(w, s, IfidsFrom(ifids, s))
    {
      RoomEnough(w, s, IfidsFrom(ifids, s));
    }
  }

  /** The runs of dijkstra in path_compute_start. */
  method SolveAll(matrix: array2<NetNode>, ifids: (nat, nat) -> nat, ghost w: Weights) returns (ok: bool)
    requires Square(matrix) && ValidWeights(w) && HasMetrics(matrix, w)
    requires forall s :: 0 <= s < |w| ==> FreshRow(matrix, s)
    requires forall r, h :: ifids(r, h) < MAX_INTERFACE
    modifies matrix
    ensures HasMetrics(matrix, w)
    ensures forall i, j :: 0 <= i < |w| && 0 <= j < |w| ==> matrix[i, j].linkIndex == old(matrix[i, j]).linkIndex
    ensures ok <==> AllFitUpTo(w, ifids, |w|)
    ensures ok ==> forall s :: 0 <= s < |w| ==> SolvedRow(matrix, s, w)
  {
    hide ValidWeights, Dist, FirstHop, Neighbours, Room, Fits;
    ok := true;
    var r := 0;
    while r < matrix.Length0
      invariant 0 <= r <= matrix.Length0 && HasMetrics(matrix, w)
      invariant forall i, j :: 0 <= i < |w| && 0 <= j < |w| ==> matrix[i, j].linkIndex == old(matrix[i, j]).linkIndex
      invariant forall i, j :: r <= i < |w| && 0 <= j < |w| ==> matrix[i, j] == old(matrix[i, j])
      invariant ok <==> AllFitUpTo(w, ifids, r)
      invariant ok ==> forall s :: 0 <= s < r ==> SolvedRow(matrix, s, w)
    {
      assert old(FreshRow(matrix, r)) && FreshRow(matrix, r);
      label before:
      var fits := Dijkstra(r, matrix, IfidsFrom(ifids, r), w);
      ok := ok && fits;
      forall s | 0 <= s < r && ok
        ensures SolvedRow(matrix, s, w)
      {
        assert old@before(SolvedRow(matrix, s, w));
        assert forall j :: 0 <= j < |w| ==> matrix[s, j] == old@before(matrix[s, j]);
      }
      r := r + 1;
    }
  }

  /**
    path_compute_start for one area. If no next-hop write leaves its array, which is
    the case exactly if no list of the runs with lists of any length is longer, the
    area holds one recorded, indexed path per connected pair and nothing is down. What
    is solved is the graph of the links given.
   */
  method ComputePaths(rids: seq<nat>, links: seq<LinkInfo>, ifids: (nat, nat) -> nat)
    returns (area: Area?, ghost m: Solved)
    requires ValidLinks(rids, links)
    requires forall r, h :: ifids(r, h) < MAX_INTERFACE
    ensures Describes(rids, links, m) && ValidWeights(m.w)
    ensures area != null <==> AllFitUpTo(m.w, ifids, |m.w|)
    ensures (forall s :: 0 <= s < |m.w| ==> Room(m.w, s) || |Neighbours(m.w, s)| <= MAX_ECMP_LIMIT) ==> area != null
    ensures area != null ==> area.rids == rids && area.links == links && area.Valid(m) && area.reported == {}
  {
    hide AllFitUpTo, Room, Neighbours, Fits, Describes, Dist, FirstHop;
    var matrix := BuildMatrix(rids, links);
    ghost var w, li, ends := MetricsOf(matrix), NumbersOf(matrix), EndsOf(rids, links);
    MatrixGood(rids, links, matrix);
    MatrixDescribes(rids, links, matrix, []);
    var ok := SolveAll(matrix, ifids, w);
    RoomEverywhere(w, ifids);
    m := Solved(w, HopsOf(matrix), li, ends);
    AnyHops(rids, links, m, []);
    if !ok {
      return null, m;
    }
    RowsSolved(matrix, w);
    var linkPaths := new seq<NetPath>[|links|](_ => []);
    area := new Area(rids, links, matrix, linkPaths);
    area.RecordShortPath(m);
  }
}

/**
  The recorded shortest paths of an area, the index from links to paths, and the
  effect of link failures (ddc/ddc.c).
 */
module Areas {
  import opened Sequences
  import opened ShortestPaths
  import opened PathWalks
  import opened Ddc

  datatype LinkInfo = LinkInfo(rid: nat, ifid: nat, nrid: nat, nifid: nat, metric: nat)

  /** A recorded path; `walk` and `links` are what its recording went through. */
  class NetPath {
    const src: nat
    const dst: nat
    const importance: nat
    const distance: nat
    ghost const walk: seq<nat>
    ghost const links: seq<int>
    var connected: bool

    constructor (src: nat, dst: nat, importance: nat, distance: nat, ghost walk: seq<nat>, ghost links: seq<int>)
      ensures this.src == src && this.dst == dst && this.importance == importance && this.distance == distance
      ensures this.walk == walk && this.links == links && connected
    {
      this.src, this.dst, this.importance, this.distance := src, dst, importance, distance;
      this.walk, this.links := walk, links;
      connected := true;
    }
  }

  /** The solved matrix of an area as values: metrics, chosen next hops, link numbers and their inverse. */
  datatype Solved = Solved(w: Weights, nh: seq<seq<nat>>, li: seq<seq<int>>, ends: seq<(nat, nat)>)

  ghost predicate ValidSolved(m: Solved) {
    ValidWeights(m.w) && SolvedHops(m.w, m.nh) && Numbered(m.w, m.li, m.ends)
  }

  predicate Backbone(l: LinkInfo) {
    !(l.nrid == 0 && l.nifid == 0)
  }

  /** Backbone links join two listed routers with a metric in range, one per ordered pair. */
  predicate ValidLinks(rids: seq<nat>, links: seq<LinkInfo>) {
    && NoRepeat(rids)
    && (forall k :: 0 <= k < |links| && Backbone(links[k]) ==>
          links[k].rid in rids && links[k].nrid in rids && links[k].rid != links[k].nrid
          && 1 <= links[k].metric <= MAX_METRIC)
    && (forall k, q :: 0 <= k < q < |links| && Backbone(links[k]) && Backbone(links[q]) ==>
          links[k].rid != links[q].rid || links[k].nrid != links[q].nrid)
  }

  // ----- what a solved matrix says of the links -----

  ghost function Position(rids: seq<nat>, rid: nat): (i: nat)
    ensures rid in rids ==> i < |rids| && rids[i] == rid
  {
    if rid in rids then (var i: nat :| i < |rids| && rids[i] == rid; i) else 0
  }

  /** The routers a link joins. */
  ghost function EndsOf(rids: seq<nat>, links: seq<LinkInfo>): (ends: seq<(nat, nat)>)
    ensures |ends| == |links|
    ensures forall k :: 0 <= k < |links| ==> ends[k] == (Position(rids, links[k].rid), Position(rids, links[k].nrid))
  {
    seq(|links|, k requires 0 <= k < |links| => (Position(rids, links[k].rid), Position(rids, links[k].nrid)))
  }

  /** A metric and a link number at (i, j) are those of the backbone link from router i to router j, if there is one. */
  ghost predicate Pictures(rids: seq<nat>, links: seq<LinkInfo>, metric: nat, index: int, i: nat, j: nat)
    requires i < |rids| && j < |rids|
  {
    if index == -1 then
      metric == MAX_METRIC && forall k :: 0 <= k < |links| && Backbone(links[k]) ==>
          !(links[k].rid == rids[i] && links[k].nrid == rids[j])
    else
      && 0 <= index < |links| && Backbone(links[index])
      && links[index].rid == rids[i] && links[index].nrid == rids[j] && metric == links[index].metric
  }

  /** The graph of m is that of the links: every backbone link at its pair, under its own number, and no other. */
  ghost predicate Describes(rids: seq<nat>, links: seq<LinkInfo>, m: Solved) {
    && |m.w| == |m.li| == |rids| && m.ends == EndsOf(rids, links)
    && (forall i :: 0 <= i < |rids| ==> |m.w[i]| == |m.li[i]| == |rids|)
    && (forall i, j :: 0 <= i < |rids| && 0 <= j < |rids| ==> Pictures(rids, links, m.w[i][j], m.li[i][j], i, j))
  }

  lemma AnyHops(rids: seq<nat>, links: seq<LinkInfo>, m: Solved, nh: seq<seq<nat>>)
    requires Describes(rids, links, m.(nh := nh))
    ensures Describes(rids, links, m)
  {
  }

  /** The matrix cells hold what m says. */
  ghost predicate Holds(matrix: array2<NetNode>, m: Solved)
    requires Square(matrix)
    reads matrix
  {
    && ValidSolved(m) && |m.w| == matrix.Length0
    && (forall i, j :: 0 <= i < |m.w| && 0 <= j < |m.w| ==>
          matrix[i, j].metric == m.w[i][j] && matrix[i, j].pathCost == Dist(m.w, i, j)
          && matrix[i, j].nextHop == m.nh[i][j] && matrix[i, j].linkIndex == m.li[i][j])
  }

  /** add_path_of_link. `ok` says that the write fell inside the array: the test lets the first number past it
      through. */
  method AddPathOfLink(index: int, path: NetPath, linkPaths: array<seq<NetPath>>) returns (r: int, ok: bool)
    modifies linkPaths
    ensures r == if 0 <= index <= linkPaths.Length then 0 else -1
    ensures ok <==> index != linkPaths.Length
    ensures forall l :: 0 <= l < linkPaths.Length ==>
      linkPaths[l] == if l == index then [path] + old(linkPaths[l]) else old(linkPaths[l])
  {
    if linkPaths.Length < index || index < 0 {
      return -1, true;
    }
    ok := index < linkPaths.Length;
    if ok {
      linkPaths[index] := [path] + linkPaths[index];
    }
    return 0, ok;
  }

  /** The walk stays inside the matrix and reaches j only at its end. */
  lemma WalkFrame(m: Solved, i: nat, j: nat, p: seq<nat>)
    requires ValidSolved(m) && i < |m.w| && j < |m.w| && Dist(m.w, i, j) < MAX_METRIC && p == Greedy(m.w, m.nh, i, j)
    ensures p != [] && p[0] == i && |m.li| == |m.w|
    ensures forall a :: 0 <= a < |p| ==> p[a] < |m.li| && |m.li[p[a]]| == |m.li| && (p[a] == j <==> a == |p| - 1)
  {
    hide FirstHop, Greedy, Dist;
    forall a | 0 <= a < |p| - 1
      ensures p[a] != j
    {
      GreedyFollows(m.w, m.nh, i, j, a);
    }
  }

  /** Where the recording stands after k links, and what its next link is. */
  lemma WalkStep(m: Solved, i: nat, j: nat, p: seq<nat>, k: nat)
    requires ValidSolved(m) && i < |m.w| && j < |m.w| && Dist(m.w, i, j) < MAX_METRIC
    requires p == Greedy(m.w, m.nh, i, j) && k < |p| && p[k] != j
    ensures k < |p| - 1 && p[k] < |m.w| && |m.nh| == |m.li| == |m.w| == |m.nh[p[k]]| == |m.li[p[k]]|
    ensures p[k + 1] == m.nh[p[k]][j] < |m.w| && p[k + 1] != p[k] && m.li[p[k]][p[k]] == -1
    ensures forall a :: 0 <= a < |p| ==> p[a] < |m.li| && |m.li[p[a]]| == |m.li|
    ensures var l := m.li[p[k]][p[k + 1]];
            && 0 <= l < |m.ends| && l !in LinksOf(m.li, p[..k + 1])
            && LinksOf(m.li, p[..k + 2]) == LinksOf(m.li, p[..k + 1]) + [l]
  {
    hide FirstHop, Greedy, Dist;
    GreedyIsCheapest(m.w, m.nh, i, j);
    NearingNoRepeat(m.w, p, j);
    GreedyFollows(m.w, m.nh, i, j, k);
    LinkIsNew(m.w, m.li, m.ends, p, k);
  }

  /**
    The walk of record_short_path. Its look-up of the next hop lags by one turn, so
    that every other turn stays where it is; still it ends, follows the walk of the
    next hops, and registers the path once with each link of that walk.
   */
  method RecordWalk(path: NetPath, i: nat, j: nat, matrix: array2<NetNode>, linkPaths: array<seq<NetPath>>,
                    ghost m: Solved)
    requires Square(matrix) && Holds(matrix, m) && linkPaths.Length == |m.ends|
    requires i < |m.w| && j < |m.w| && Dist(m.w, i, j) < MAX_METRIC
    requires path.walk == Greedy(m.w, m.nh, i, j) && path.links == LinksOf(m.li, path.walk)
    modifies linkPaths
    ensures forall l :: 0 <= l < linkPaths.Length ==>
      linkPaths[l] == if l in path.links then [path] + old(linkPaths[l]) else old(linkPaths[l])
  {
    hide FirstHop, Greedy, Dist, ValidSolved, LinksOf;
    ghost var p := path.walk;
    var nextHop, thisNode := matrix[i, j].nextHop, i;
    WalkFrame(m, i, j, p);
    assert p[..1] == [i] && p[..|p|] == p;
    ghost var k, done := 0, LinksOf(m.li, p[..1]);
    assert done == [];
    while thisNode != j
      invariant 0 <= k < |p| && thisNode == p[k] < matrix.Length0
      invariant nextHop == matrix[thisNode, j].nextHop || nextHop == thisNode
      invariant done == LinksOf(m.li, p[..k + 1])
      invariant forall l :: 0 <= l < linkPaths.Length ==>
        linkPaths[l] == if l in done then [path] + old(linkPaths[l]) else old(linkPaths[l])
      decreases |p| - k, if nextHop == thisNode then 1 else 0
    {
      WalkStep(m, i, j, p, k);
      var added, ok := AddPathOfLink(matrix[thisNode, nextHop].linkIndex, path, linkPaths);
      assert ok;
      if nextHop != thisNode {
        done := done + [m.li[p[k]][p[k + 1]]];
        k := k + 1;
      }
      var lagging := matrix[thisNode, j].nextHop;
      thisNode := nextHop;
      nextHop := lagging;
    }
  }

  /** Path p records the walk of the next hops between its ends. */
  ghost predicate IsRecord(m: Solved, p: NetPath) {
    && ValidSolved(m) && p.src < |m.w| && p.dst < |m.w| && Dist(m.w, p.src, p.dst) == p.distance < MAX_METRIC
    && p.walk == Greedy(m.w, m.nh, p.src, p.dst)
    && (forall k :: 0 <= k < |p.walk| ==> p.walk[k] < |m.li| && |m.li[p.walk[k]]| == |m.li|)
    && p.links == LinksOf(m.li, p.walk)
  }

  /** The index lists, for each link, exactly the paths whose walk uses it, once each. */
  ghost predicate Indexed(paths: seq<NetPath>, index: seq<seq<NetPath>>) {
    forall l :: 0 <= l < |index| ==>
      && NoRepeat(index[l])
      && (forall p :: p in index[l] ==> p in paths && l in p.links)
      && (forall p :: p in paths && l in p.links ==> p in index[l])
  }

  /** Pairs that come before (i, j) in row order. */
  predicate Before(a: nat, b: nat, i: nat, j: nat) {
    a < i || (a == i && b < j)
  }

  /** There is one record for every connected pair before (i, j), and no other. */
  ghost predicate RecordedUpTo(m: Solved, paths: seq<NetPath>, i: nat, j: nat) {
    && ValidSolved(m) && NoRepeat(paths)
    && (forall p :: p in paths ==> IsRecord(m, p) && Before(p.src, p.dst, i, j))
    && (forall p, q :: p in paths && q in paths && p.src == q.src && p.dst == q.dst ==> p == q)
    && (forall a, b :: 0 <= a < |m.w| && 0 <= b < |m.w| && Before(a, b, i, j) && Dist(m.w, a, b) < MAX_METRIC ==>
        HasRecord(paths, a, b))
  }

  ghost predicate HasRecord(paths: seq<NetPath>, a: nat, b: nat) {
    exists p :: p in paths && p.src == a && p.dst == b
  }

  lemma MakesRecord(m: Solved, p: NetPath)
    requires ValidSolved(m) && p.src < |m.w| && p.dst < |m.w| && Dist(m.w, p.src, p.dst) == p.distance < MAX_METRIC
    requires p.walk == Greedy(m.w, m.nh, p.src, p.dst)
    requires forall k :: 0 <= k < |p.walk| ==> p.walk[k] < |m.li| && |m.li[p.walk[k]]| == |m.li|
    requires p.links == LinksOf(m.li, p.walk)
    ensures IsRecord(m, p)
  {
  }

  lemma OneMoreRecord(m: Solved, paths: seq<NetPath>, p: NetPath, i: nat, j: nat)
    requires RecordedUpTo(m, paths, i, j) && p !in paths && IsRecord(m, p) && p.src == i && p.dst == j
    ensures RecordedUpTo(m, [p] + paths, i, j + 1)
  {
    hide IsRecord, Dist, Least, SolvedHops, Numbered;
    var more := [p] + paths;
    assert forall q :: q in more <==> q == p || q in paths;
    forall a, b | 0 <= a < |m.w| && 0 <= b < |m.w| && Before(a, b, i, j + 1) && Dist(m.w, a, b) < MAX_METRIC
      ensures HasRecord(more, a, b)
    {
      if a == i && b == j {
        assert p in more;
      } else {
        assert HasRecord(paths, a, b);
      }
    }
  }

  lemma NoRecord(m: Solved, paths: seq<NetPath>, i: nat, j: nat)
    requires RecordedUpTo(m, paths, i, j) && i < |m.w| && j < |m.w| && Dist(m.w, i, j) == MAX_METRIC
    ensures RecordedUpTo(m, paths, i, j + 1)
  {
    hide IsRecord, ValidSolved, Least;
  }

  lemma NothingRecorded(m: Solved)
    requires ValidSolved(m)
    ensures RecordedUpTo(m, [], 0, 0)
  {
  }

  lemma RowRecorded(m: Solved, paths: seq<NetPath>, i: nat)
    requires ValidSolved(m) && RecordedUpTo(m, paths, i, |m.w|)
    ensures RecordedUpTo(m, paths, i + 1, 0)
  {
  }

  /** The weight of a router: the sum of the metrics of its access links (get_importance_value_of_router). */
  function Importance(links: seq<LinkInfo>, rid: nat): nat {
    if links == [] then 0 else
      var l := links[|links| - 1];
      Importance(links[..|links| - 1], rid) + if l.rid == rid && l.nifid == 0 && l.nrid == 0 then l.metric else 0
  }

  /** What each link adds to the weight of a router: an access link of it, its metric. */
  function Shares(links: seq<LinkInfo>, rid: nat): (xs: seq<nat>)
    ensures |xs| == |links|
    ensures forall k :: 0 <= k < |links| ==>
      xs[k] == if links[k].rid == rid && links[k].nrid == 0 && links[k].nifid == 0 then links[k].metric else 0
  {
    seq(|links|, k requires 0 <= k < |links| =>
      if links[k].rid == rid && links[k].nrid == 0 && links[k].nifid == 0 then links[k].metric else 0)
  }

  lemma {:induction false} ImportanceIsSum(links: seq<LinkInfo>, rid: nat)
    ensures Importance(links, rid) == Sum(Shares(links, rid))
    decreases |links|
  {
    if links != [] {
      ImportanceIsSum(links[..|links| - 1], rid);
      assert Shares(links, rid)[..|links| - 1] == Shares(links[..|links| - 1], rid);
    }
  }

  method RouterImportance(rid: nat, links: seq<LinkInfo>) returns (value: nat)
    ensures value == Importance(links, rid) == Sum(Shares(links, rid))
  {
    value := 0;
    var i := 0;
    while i < |links|
      invariant 0 <= i <= |links| && value == Importance(links[..i], rid)
    {
      assert links[..i + 1][..i] == links[..i];
      if rid == links[i].rid && links[i].nifid == 0 && links[i].nrid == 0 {
        value := value + links[i].metric;
      }
      i := i + 1;
    }
    assert links[..|links|] == links;
    ImportanceIsSum(links, rid);
  }

  /** Two descriptions of the same link, whatever the metric. */
  predicate Same(a: LinkInfo, b: LinkInfo) {
    a.rid == b.rid && a.nrid == b.nrid && a.ifid == b.ifid && a.nifid == b.nifid
  }

  /** Two consecutive routers of a walk are the ends of a listed backbone link that d describes. */
  ghost predicate Crosses(rids: seq<nat>, links: seq<LinkInfo>, walk: seq<nat>, d: LinkInfo) {
    && Backbone(d)
    && (exists i :: 0 <= i < |links| && Same(links[i], d))
    && (exists k :: 0 <= k < |walk| - 1 && JoinsAt(rids, walk, d, k))
  }

  ghost predicate JoinsAt(rids: seq<nat>, walk: seq<nat>, d: LinkInfo, k: nat)
    requires k < |walk| - 1
  {
    walk[k] < |rids| && walk[k + 1] < |rids| && d.rid == rids[walk[k]] && d.nrid == rids[walk[k + 1]]
  }

  /** A backbone link is on the list of a path exactly when the path's walk goes from its one end to the other. */
  lemma LinkIsCrossed(rids: seq<nat>, links: seq<LinkInfo>, m: Solved, p: NetPath, i: nat, d: LinkInfo)
    requires ValidLinks(rids, links) && Describes(rids, links, m) && IsRecord(m, p)
    requires i < |links| && Same(links[i], d)
    ensures i in p.links <==> Crosses(rids, links, p.walk, d)
  {
    hide ValidSolved, Dist, Greedy;
    if i in p.links {
      var k :| 0 <= k < |p.links| && p.links[k] == i;
      assert Pictures(rids, links, m.w[p.walk[k]][p.walk[k + 1]], i, p.walk[k], p.walk[k + 1]);
      assert JoinsAt(rids, p.walk, d, k);
    }
    if Crosses(rids, links, p.walk, d) {
      var k :| 0 <= k < |p.walk| - 1 && JoinsAt(rids, p.walk, d, k);
      var x := m.li[p.walk[k]][p.walk[k + 1]];
      assert Pictures(rids, links, m.w[p.walk[k]][p.walk[k + 1]], x, p.walk[k], p.walk[k + 1]);
      assert x == i;
      assert p.links[k] == i;
    }
  }

  /** A report about two routers joined by a listed link counts if it also names the two interfaces, and then against
      the walks that go from the one to the other. */
  lemma ReportCounts(rids: seq<nat>, links: seq<LinkInfo>, walk: seq<nat>, d: LinkInfo, i: nat)
    requires ValidLinks(rids, links) && i < |links| && (links[i].nrid != 0 || links[i].nifid != 0)
    requires d.rid == links[i].rid && d.nrid == links[i].nrid
    requires d.nrid != 0 || d.nifid != 0
    ensures Crosses(rids, links, walk, d) <==>
      && d.ifid == links[i].ifid && d.nifid == links[i].nifid
      && exists k :: 0 <= k < |walk| - 1 && walk[k] < |rids| && walk[k + 1] < |rids|
                     && rids[walk[k]] == d.rid && rids[walk[k + 1]] == d.nrid
  {
    if j :| 0 <= j < |links| && Same(links[j], d) {
      assert Backbone(links[j]) && Backbone(links[i]);
    }
    if k :| 0 <= k < |walk| - 1 && walk[k] < |rids| && walk[k + 1] < |rids|
            && rids[walk[k]] == d.rid && rids[walk[k + 1]] == d.nrid {
      assert JoinsAt(rids, walk, d, k);
    }
    if k :| 0 <= k < |walk| - 1 && JoinsAt(rids, walk, d, k) {
      assert rids[walk[k]] == d.rid;
    }
  }

  /** The failed positions are those of the reported links, as far as a path can use them. */
  ghost predicate Located(links: seq<LinkInfo>, reported: set<LinkInfo>, failed: set<int>) {
    && (forall i :: i in failed ==> 0 <= i < |links|)
    && (forall i :: 0 <= i < |links| && Backbone(links[i]) ==>
        (i in failed <==> exists d :: d in reported && Same(links[i], d)))
  }

  /** Position `i` is found for the report d, or none is and `i` is negative. */
  lemma OneMoreReport(rids: seq<nat>, links: seq<LinkInfo>, reported: set<LinkInfo>, failed: set<int>, d: LinkInfo,
                      i: int)
    requires ValidLinks(rids, links) && Located(links, reported, failed)
    requires i < |links| && if i >= 0 then Same(links[i], d) else forall j :: 0 <= j < |links| ==> !Same(links[j], d)
    ensures Located(links, reported + {d}, if i >= 0 then failed + {i} else failed)
  {
    forall j | 0 <= j < |links| && Backbone(links[j])
      ensures j in failed || (i >= 0 && j == i) <==> exists c :: c in reported + {d} && Same(links[j], c)
    {
      if Same(links[j], d) {
        assert j == i && d in reported + {d};
      }
      if c :| c in reported && Same(links[j], c) {
        assert c in reported + {d};
      }
    }
  }

  lemma Recorded(m: Solved, paths: seq<NetPath>, i: nat, j: nat, p: NetPath)
    requires RecordedUpTo(m, paths, i, j) && p in paths
    ensures IsRecord(m, p)
  {
  }

  lemma NoneCrosses(rids: seq<nat>, links: seq<LinkInfo>, d: LinkInfo)
    requires forall i :: 0 <= i < |links| ==> !Same(links[i], d)
    ensures forall walk :: !Crosses(rids, links, walk, d)
  {
  }

  /** A path uses a failed link exactly when its walk crosses a reported one. */
  lemma FailedIsCrossed(rids: seq<nat>, links: seq<LinkInfo>, m: Solved, p: NetPath, reported: set<LinkInfo>,
                        failed: set<int>)
    requires ValidLinks(rids, links) && Describes(rids, links, m) && IsRecord(m, p) && Located(links, reported, failed)
    ensures (exists l :: l in p.links && l in failed) <==> exists d :: d in reported && Crosses(rids, links, p.walk, d)
  {
    hide ValidLinks, Describes, IsRecord;
    if l :| l in p.links && l in failed {
      LinkIsCrossed(rids, links, m, p, l, links[l]);
      var d :| d in reported && Same(links[l], d);
      LinkIsCrossed(rids, links, m, p, l, d);
    }
    if d :| d in reported && Crosses(rids, links, p.walk, d) {
      var i :| 0 <= i < |links| && Same(links[i], d);
      LinkIsCrossed(rids, links, m, p, i, d);
      assert i in p.links && i in failed;
    }
  }

  class Area {
    const rids: seq<nat>
    const links: seq<LinkInfo>
    const matrix: array2<NetNode>
    const linkPaths: array<seq<NetPath>>
    var shortpaths: seq<NetPath>

    /** What was reported down since the paths were computed, and the positions of those links in the list. */
    ghost var reported: set<LinkInfo>
    ghost var failed: set<int>

    constructor (rids: seq<nat>, links: seq<LinkInfo>, matrix: array2<NetNode>, linkPaths: array<seq<NetPath>>)
      ensures this.rids == rids && this.links == links && this.matrix == matrix && this.linkPaths == linkPaths
      ensures shortpaths == []
    {
      this.rids, this.links, this.matrix, this.linkPaths := rids, links, matrix, linkPaths;
      shortpaths, reported, failed := [], {}, {};
    }

    ghost predicate Solves(m: Solved)
      reads this, matrix
    {
      && Square(matrix) && Holds(matrix, m) && |m.w| == |rids| && |m.ends| == |links| == linkPaths.Length
      && ValidLinks(rids, links) && Describes(rids, links, m)
    }

    /** A path weighs as much as its two ends multiplied. */
    ghost predicate Weighted()
      reads this
    {
      forall p :: p in shortpaths ==>
        && p.src < |rids| && p.dst < |rids|
        && p.importance == Importance(links, rids[p.src]) * Importance(links, rids[p.dst])
    }

    ghost predicate AllUp()
      reads this, shortpaths
    {
      forall p :: p in shortpaths ==> p.connected
    }

    /** The body of the two loops of record_short_path. */
    method RecordPair(i: nat, j: nat, ghost m: Solved)
      requires Solves(m) && i < |rids| && j < |rids|
      requires RecordedUpTo(m, shortpaths, i, j) && Indexed(shortpaths, linkPaths[..])
      requires Weighted() && AllUp()
      modifies this`shortpaths, linkPaths
      ensures RecordedUpTo(m, shortpaths, i, j + 1) && Indexed(shortpaths, linkPaths[..])
      ensures Weighted() && AllUp()
    {
      hide Greedy, Dist, FirstHop, LinksOf, SolvedHops, Numbered, RecordedUpTo, IsRecord, ValidLinks, Describes;
      var node := matrix[i, j];
      if node.pathCost >= MAX_METRIC || node.metric == 0 {
        NoRecord(m, shortpaths, i, j);
        return;
      }
      ghost var walk := Greedy(m.w, m.nh, i, j);
      WalkFrame(m, i, j, walk);
      var a := RouterImportance(rids[i], links);
      var b := RouterImportance(rids[j], links);
      var path := new NetPath(i, j, a * b, node.pathCost, walk, LinksOf(m.li, walk));
      MakesRecord(m, path);
      OneMoreRecord(m, shortpaths, path, i, j);
      shortpaths := [path] + shortpaths;
      RecordWalk(path, i, j, matrix, linkPaths, m);
    }

    /** record_short_path. */
    method RecordShortPath(ghost m: Solved)
      requires Solves(m) && shortpaths == [] && forall l :: 0 <= l < linkPaths.Length ==> linkPaths[l] == []
      modifies this`shortpaths, this`reported, this`failed, linkPaths
      ensures reported == {} && failed == {} && Valid(m)
    {
      hide Greedy, Dist, FirstHop, Numbered, LinksOf, SolvedHops, RecordedUpTo, IsRecord, ValidLinks, Describes,
        Crosses;
      NothingRecorded(m);
      var n, i := |rids|, 0;
      while i < n
        invariant 0 <= i <= n && RecordedUpTo(m, shortpaths, i, 0) && Indexed(shortpaths, linkPaths[..]) && Weighted()
        invariant AllUp()
      {
        var j := 0;
        while j < n
          invariant 0 <= j <= n && RecordedUpTo(m, shortpaths, i, j) && Indexed(shortpaths, linkPaths[..]) && Weighted()
          invariant AllUp()
        {
          RecordPair(i, j, m);
          j := j + 1;
        }
        RowRecorded(m, shortpaths, i);
        i := i + 1;
      }
      reported, failed := {}, {};
    }

    /** All pairs are recorded and indexed, and a path is down exactly when two consecutive routers of its walk
        are the ends of a link reported down. */
    ghost predicate Valid(m: Solved)
      reads this, matrix, linkPaths, shortpaths
    {
      && Solves(m) && RecordedUpTo(m, shortpaths, |rids|, 0) && Indexed(shortpaths, linkPaths[..]) && Weighted()
      && Located(links, reported, failed)
      && (forall p :: p in shortpaths ==>
          (!p.connected <==> exists d :: d in reported && Crosses(rids, links, p.walk, d)))
    }

    /** Marking down every path listed for a link. */
    method MarkDown(list: seq<NetPath>)
      requires forall p :: p in list ==> p in shortpaths
      modifies shortpaths`connected
      ensures forall p :: p in shortpaths ==> (p.connected <==> old(p.connected) && p !in list)
    {
      var k := 0;
      while k < |list|
        invariant 0 <= k <= |list|
        invariant forall p :: p in shortpaths ==> (p.connected <==> old(p.connected) && p !in list[..k])
      {
        assert list[k] in list;
        list[k].connected := false;
        k := k + 1;
      }
      assert list[..|list|] == list;
    }

    /** The paths listed for link i are those whose walk crosses it. */
    lemma ListedCross(i: nat, link: LinkInfo, m: Solved)
      requires Valid(m) && i < |links| && Same(links[i], link)
      ensures forall p :: p in linkPaths[i] ==> p in shortpaths
      ensures forall p :: p in shortpaths ==> (p in linkPaths[i] <==> Crosses(rids, links, p.walk, link))
    {
      hide RecordedUpTo, Holds, ValidSolved, ValidLinks, Describes, Crosses, Located, IsRecord;
      assert linkPaths[..][i] == linkPaths[i];
      forall p | p in shortpaths
        ensures p in linkPaths[i] <==> Crosses(rids, links, p.walk, link)
      {
        Recorded(m, shortpaths, |rids|, 0, p);
        LinkIsCrossed(rids, links, m, p, i, link);
      }
    }

    /** Link i is found for a report: its paths go down. */
    method TakeDown(i: nat, link: LinkInfo, ghost m: Solved)
      requires Valid(m) && i < |links| && Same(links[i], link)
      modifies this`reported, this`failed, shortpaths`connected
      ensures Valid(m) && reported == old(reported) + {link} && failed == old(failed) + {i}
      ensures forall p :: p in shortpaths ==> (p.connected <==> old(p.connected) && !Crosses(rids, links, p.walk, link))
      ensures BrokenWeight(Values(shortpaths), old(failed)) <= BrokenWeight(Values(shortpaths), failed)
      ensures BrokenWeight(Values(shortpaths), failed) <= TotalWeight(Values(shortpaths))
    {
      hide RecordedUpTo, Holds, ValidSolved, ValidLinks, Describes, Crosses, Located, Indexed;
      ListedCross(i, link, m);
      OneMoreReport(rids, links, reported, failed, link, i);
      MarkDown(linkPaths[i]);
      reported, failed := reported + {link}, failed + {i};
      BrokenWeightMonotone(Values(shortpaths), old(failed), failed);
    }

    /** record_broken_path_down: the first link that matches takes its paths down. */
    method RecordBrokenPathDown(link: LinkInfo, ghost m: Solved)
      requires Valid(m)
      modifies this`reported, this`failed, shortpaths`connected
      ensures Valid(m) && reported == old(reported) + {link}
      ensures forall p :: p in shortpaths ==> (p.connected <==> old(p.connected) && !Crosses(rids, links, p.walk, link))
      ensures failed == old(failed) || exists i ::
        0 <= i < |links| && Same(links[i], link) && failed == old(failed) + {i}
      ensures (exists i :: 0 <= i < |links| && Same(links[i], link)) ==>
        exists i :: 0 <= i < |links| && Same(links[i], link) && i in failed
      ensures BrokenWeight(Values(shortpaths), old(failed)) <= BrokenWeight(Values(shortpaths), failed)
      ensures BrokenWeight(Values(shortpaths), failed) <= TotalWeight(Values(shortpaths))
    {
      hide RecordedUpTo, Holds, ValidSolved, ValidLinks, Describes, Crosses, Located, Indexed;
      var i := 0;
      while i < |links|
        invariant 0 <= i <= |links| && forall k :: 0 <= k < i ==> !Same(links[k], link)
      {
        if Same(links[i], link) {
          TakeDown(i, link, m);
          return;
        }
        i := i + 1;
      }
      OneMoreReport(rids, links, reported, failed, link, -1);
      NoneCrosses(rids, links, link);
      reported := reported + {link};
      BrokenWeightMonotone(Values(shortpaths), failed, failed);
    }

    /** A path is down exactly when one of its links is failed. */
    lemma DownIsBroken(m: Solved)
      requires Valid(m)
      ensures forall p :: p in shortpaths ==> (!p.connected <==> exists l :: l in p.links && l in failed)
    {
      hide RecordedUpTo, Holds, ValidSolved, Indexed, ValidLinks, Describes, Crosses, Located, IsRecord;
      forall p | p in shortpaths
        ensures !p.connected <==> exists l :: l in p.links && l in failed
      {
        Recorded(m, shortpaths, |rids|, 0, p);
        FailedIsCrossed(rids, links, m, p, reported, failed);
      }
    }

    /** A recorded path weighs the product of what the access links of its two ends cost. */
    lemma PathWeight(m: Solved, p: NetPath)
      requires Valid(m) && p in shortpaths
      ensures p.src < |rids| && p.dst < |rids|
      ensures p.importance == Sum(Shares(links, rids[p.src])) * Sum(Shares(links, rids[p.dst]))
    {
      hide RecordedUpTo, Solves, Indexed, Located, Crosses, Sum;
      ImportanceIsSum(links, rids[p.src]);
      ImportanceIsSum(links, rids[p.dst]);
    }

    /** The sums of all weights and of those of paths that are down, in terms of the failed links. */
    lemma DownWeighs(m: Solved)
      requires Valid(m)
      ensures TotalWeight(Values(shortpaths)) == Sum(AllWeights(shortpaths))
      ensures BrokenWeight(Values(shortpaths), failed) == Sum(Losses(shortpaths))
    {
      hide RecordedUpTo, Solves, Indexed, Located, Crosses, Sum;
      DownIsBroken(m);
      WeightsAreSums(Values(shortpaths), failed, AllWeights(shortpaths), Losses(shortpaths));
    }

    /** get_net_destory_degree, as the pair (broken, all) whose quotient it returns. */
    method DestroyDegree(ghost m: Solved) returns (broken: nat, total: nat)
      requires Valid(m)
      ensures total == TotalWeight(Values(shortpaths)) && broken == BrokenWeight(Values(shortpaths), failed)
      ensures total == Sum(AllWeights(shortpaths)) && broken == Sum(Losses(shortpaths))
      ensures forall p :: p in shortpaths ==> p.importance <= total && (!p.connected ==> p.importance <= broken)
      ensures broken <= total
      ensures broken == total <==> forall p :: p in shortpaths && p.connected ==> p.importance == 0
      ensures broken == 0 <==> forall p :: p in shortpaths && !p.connected ==> p.importance == 0
    {
      hide RecordedUpTo, Holds, ValidSolved, Indexed, ValidLinks, Describes, Crosses, Located, IsRecord;
      DownIsBroken(m);
      broken, total := 0, 0;
      var k := 0;
      while k < |shortpaths|
        invariant 0 <= k <= |shortpaths|
        invariant total + TotalWeight(Values(shortpaths[k..])) == TotalWeight(Values(shortpaths))
        invariant broken + BrokenWeight(Values(shortpaths[k..]), failed) == BrokenWeight(Values(shortpaths), failed)
      {
        var p := shortpaths[k];
        assert Values(shortpaths[k..])[1..] == Values(shortpaths[k + 1..]);
        if p.connected {
          total := total + p.importance;
        } else {
          total, broken := total + p.importance, broken + p.importance;
        }
        k := k + 1;
      }
      DownWeighs(m);
      LossesCompare(shortpaths);
    }
  }

  ghost function AllWeights(paths: seq<NetPath>): (xs: seq<nat>)
    ensures |xs| == |paths| && forall k :: 0 <= k < |xs| ==> xs[k] == paths[k].importance
  {
    seq(|paths|, k requires 0 <= k < |paths| => paths[k].importance)
  }

  /** What each path that is down loses. */
  ghost function Losses(paths: seq<NetPath>): (xs: seq<nat>)
    reads paths
    ensures |xs| == |paths|
    ensures forall k :: 0 <= k < |xs| ==> xs[k] == if paths[k].connected then 0 else paths[k].importance
  {
    seq(|paths|, k requires 0 <= k < |paths| reads paths => if paths[k].connected then 0 else paths[k].importance)
  }

  /** Losses against weights, path by path. */
  lemma LossesCompare(paths: seq<NetPath>)
    ensures var lost, all := Sum(Losses(paths)), Sum(AllWeights(paths));
            && lost <= all
            && (lost == all <==> forall p :: p in paths && p.connected ==> p.importance == 0)
            && (lost == 0 <==> forall p :: p in paths && !p.connected ==> p.importance == 0)
            && (forall p :: p in paths ==> p.importance <= all && (!p.connected ==> p.importance <= lost))
  {
    hide Sum;
    var xs, ys := Losses(paths), AllWeights(paths);
    SumCompare(xs, ys);
    var none := seq(|paths|, k => 0);
    SumCompare(none, xs);
    SumNothing(none);
    forall p | p in paths
      ensures p.importance <= Sum(ys) && (!p.connected ==> p.importance <= Sum(xs))
    {
      var k :| 0 <= k < |paths| && paths[k] == p;
      SumHas(xs, k);
      SumHas(ys, k);
    }
    if forall p :: p in paths && p.connected ==> p.importance == 0 {
      assert forall k :: 0 <= k < |paths| ==> paths[k] in paths;
      assert xs == ys;
    }
    if xs == ys {
      forall p | p in paths && p.connected
        ensures p.importance == 0
      {
        var k :| 0 <= k < |paths| && paths[k] == p;
        assert xs[k] == ys[k];
      }
    }
    if forall p :: p in paths && !p.connected ==> p.importance == 0 {
      assert forall k :: 0 <= k < |paths| ==> paths[k] in paths;
      assert xs == none;
    }
  }

  ghost function Values(paths: seq<NetPath>): (ps: seq<Path>)
    ensures |ps| == |paths| && forall k :: 0 <= k < |ps| ==> ps[k] == Path(paths[k].links, paths[k].importance)
  {
    seq(|paths|, k requires 0 <= k < |paths| => Path(paths[k].links, paths[k].importance))
  }
}

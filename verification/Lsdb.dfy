/** The link state database of lsdb/: its routers, its links and the lists over both, updated in place. */
module Lsdb {
  import opened LinkStates
  import opened Sequences
  import opened LsdbTables

  /** A link state as a traversal hands it out. */
  datatype Link = Link(key: Key, entry: Entry)

  /** Which links a traversal visits: all, those to another router, or those to an access network. */
  datatype Which = All | Backbone | Access

  predicate Qualifies(w: Which, k: Key) {
    w.All? || (w.Backbone? <==> k.nrt != 0)
  }

  /** Where a traversal looks: over the whole database, or at one router's links. */
  datatype Scope = Everywhere | At(rt: nat)

  predicate Within(c: Scope, k: Key) {
    c.Everywhere? || k.rt == c.rt
  }

  ghost predicate KeysOnce(out: seq<Link>) {
    forall i, j :: 0 <= i < j < |out| ==> out[i].key != out[j].key
  }

  /** Every qualifying link of the database once, and nothing else. */
  ghost predicate Complete(out: seq<Link>, db: Db, w: Which, c: Scope) {
    && KeysOnce(out)
    && (forall l :: l in out <==> l.key in db && db[l.key] == l.entry && Qualifies(w, l.key) && Within(c, l.key))
  }

  /** The list a traversal builds by putting each link it visits at the head. */
  function Visited(s: seq<nat>, states: map<nat, LinkNode>, w: Which): seq<Link>
    requires forall x :: x in s ==> x in states
  {
    if s == [] then [] else
      var x := states[s[|s| - 1]];
      (if Qualifies(w, x.key) then [Link(x.key, x.entry)] else []) + Visited(s[..|s| - 1], states, w)
  }

  lemma {:induction false} VisitedMembers(s: seq<nat>, states: map<nat, LinkNode>, w: Which, l: Link)
    requires forall x :: x in s ==> x in states
    ensures l in Visited(s, states, w) <==>
              Qualifies(w, l.key) && exists x :: x in s && states[x].key == l.key && states[x].entry == l.entry
  {
    if s != [] {
      var n := |s| - 1;
      VisitedMembers(s[..n], states, w, l);
      assert s == s[..n] + [s[n]];
      assert s[n] in s;
    }
  }

  /** The listing names these nodes, the last one first. */
  ghost predicate Lists(out: seq<Link>, picked: seq<nat>, states: map<nat, LinkNode>) {
    && |out| == |picked|
    && (forall i :: 0 <= i < |out| ==>
          var x := picked[|out| - 1 - i]; x in states && out[i].key == states[x].key && out[i].entry == states[x].entry)
  }

  /** A traversal builds its listing from the end of the list it walks. */
  lemma {:induction false} VisitedBackwards(s: seq<nat>, states: map<nat, LinkNode>, w: Which)
    returns (picked: seq<nat>)
    requires forall x :: x in s ==> x in states
    ensures PickedFrom(s, picked) && Lists(Visited(s, states, w), picked, states)
    ensures forall x :: x in picked ==> x in s
    decreases |s|
  {
    hide PickedFrom;
    picked := [];
    if s == [] {
      NothingPicked(s);
    } else {
      var n := |s| - 1;
      var before := VisitedBackwards(s[..n], states, w);
      assert s == s[..n] + [s[n]];
      OneMorePicked(s[..n], before, s[n]);
      picked := if Qualifies(w, states[s[n]].key) then before + [s[n]] else before;
    }
  }

  lemma {:induction false} VisitedOnce(s: seq<nat>, states: map<nat, LinkNode>, w: Which)
    requires NoRepeat(s) && forall x :: x in s ==> x in states
    requires forall x, y :: x in states && y in states && states[x].key == states[y].key ==> x == y
    ensures KeysOnce(Visited(s, states, w))
  {
    if s != [] {
      var n := |s| - 1;
      VisitedOnce(s[..n], states, w);
      var before, x := Visited(s[..n], states, w), states[s[n]];
      forall j | 0 <= j < |before|
        ensures before[j].key != x.key
      {
        VisitedMembers(s[..n], states, w, before[j]);
        assert s[n] !in s[..n];
      }
    }
  }

  lemma VisitedLink(t: Tables, s: seq<nat>, w: Which, c: Scope, l: Link)
    requires LinksListed(t)
    requires forall x :: x in s <==> x in t.states && Within(c, t.states[x].key)
    ensures l in Visited(s, t.states, w) <==>
              l.key in Abs(t) && Abs(t)[l.key] == l.entry && Qualifies(w, l.key) && Within(c, l.key)
  {
    hide Abs, Visited, LinksListed;
    VisitedMembers(s, t.states, w, l);
    AbsHas(t, l.key);
    forall x | x in t.states && t.states[x].key == l.key
      ensures l.key in Abs(t) && Abs(t)[l.key] == t.states[x].entry
    {
      Located(t, x);
    }
  }

  /** A list that holds exactly the links of a scope, each once, is enough. */
  lemma VisitedComplete(t: Tables, s: seq<nat>, w: Which, c: Scope)
    requires LinksListed(t) && NoRepeat(s)
    requires forall x :: x in s <==> x in t.states && Within(c, t.states[x].key)
    ensures Complete(Visited(s, t.states, w), Abs(t), w, c)
  {
    VisitedOnce(s, t.states, w);
    hide Abs, Visited, NoRepeat, LinksListed, KeysOnce, Qualifies;
    forall l: Link
      ensures l in Visited(s, t.states, w) <==>
                l.key in Abs(t) && Abs(t)[l.key] == l.entry && Qualifies(w, l.key) && Within(c, l.key)
    {
      VisitedLink(t, s, w, c, l);
    }
  }

  lemma OwnScope(t: Tables, r: nat)
    requires Good(t) && r in t.nodes
    ensures NoRepeat(t.nodes[r].links)
    ensures forall x :: x in t.nodes[r].links <==> x in t.states && Within(At(t.nodes[r].id), t.states[x].key)
  {
  }

  class Database {
    var nodes: map<nat, RouterNode>
    var states: map<nat, LinkNode>
    var routers: seq<nat>
    var links: seq<nat>
    var routersCount: nat
    var linksCount: nat
    var unused: nat

    ghost function T(): Tables
      reads this
    {
      Tables(nodes, states, routers, links, routersCount, linksCount, unused)
    }

    ghost predicate Valid()
      reads this
    {
      Good(T())
    }

    constructor ()
      ensures Valid() && T() == EMPTY
    {
      nodes, states, routers, links := map[], map[], [], [];
      routersCount, linksCount, unused := 0, 0, 1;
    }

    method RouterFind(id: nat) returns (r: Find)
      requires Valid()
      ensures r.Found? ==> r.at in nodes && nodes[r.at].id == id
      ensures r.NotFound? ==> !HasRouter(T(), id)
    {
      hide Owns, Anchored, LinksListed;
      var i := 0;
      while i < |routers|
        invariant i <= |routers|
        invariant forall j :: 0 <= j < i ==> nodes[routers[j]].id != id
      {
        if nodes[routers[i]].id == id {
          return Found(routers[i]);
        }
        i := i + 1;
      }
      return NotFound;
    }

    method RouterAdd(id: nat) returns (r: nat)
      requires Valid() && !HasRouter(T(), id)
      modifies this
      ensures Valid() && T() == WithRouter(old(T()), id) && r == old(unused) && r in nodes
      ensures nodes == old(nodes)[r := RouterNode(id, [], 0)] && routers == [r] + old(routers)
    {
      hide Good, HasRouter;
      RouterKeeps(T(), id);
      r := unused;
      nodes := nodes[r := RouterNode(id, [], 0)];
      routers := [r] + routers;
      routersCount := routersCount + 1;
      unused := unused + 1;
    }

    /** Router first, then its list: the same answer as a scan of the global list. */
    method LinkFind(k: Key) returns (r: Find)
      requires Valid()
      ensures r == Scan(links, states, k)
    {
      ScanFinds(links, states, k);
      var node := RouterFind(k.rt);
      if node.NotFound? {
        OwnerKnown(T(), k);
        return NotFound;
      }
      var own := nodes[node.at].links;
      assert Owns(T(), node.at, nodes[node.at]);
      var i := 0;
      while i < |own|
        invariant i <= |own|
        invariant forall j :: 0 <= j < i ==> states[own[j]].key != k
      {
        var c := states[own[i]].key;
        assert Anchored(T(), states[own[i]]);
        if c.ifid == k.ifid && c.nrt == k.nrt && c.nif == k.nif {
          ScanIs(T(), own[i]);
          return Found(own[i]);
        }
        i := i + 1;
      }
      OnOwnList(T(), node.at, k);
      return NotFound;
    }

    /** The router with an id, made first if there is none. */
    method RouterOf(id: nat) returns (r: nat)
      requires Valid()
      modifies this
      ensures Valid() && r in nodes && nodes[r].id == id && T() == Ensured(old(T()), id)
    {
      var found := RouterFind(id);
      if found.Found? {
        r := found.at;
        assert HasRouter(T(), id);
      } else {
        r := RouterAdd(id);
      }
    }

    /** lsdb_link_state_add: the far router is made before the near one, then the link goes to the head of
        the global list and of its router's list. */
    method LinkAdd(k: Key, e: Entry)
      requires Valid() && k.rt != 0 && k !in Abs(T())
      modifies this
      ensures Valid() && Abs(T()) == old(Abs(T()))[k := e]
      ensures AddedLink(old(T()), T(), k, e) && AddedRouters(old(T()), T(), k)
      ensures links == [links[0]] + old(links)
      ensures exists r ::
                && r in nodes && nodes[r].id == k.rt
                && nodes[r].links == [links[0]] + if r in old(nodes) then old(nodes)[r].links else []
    {
      ghost var t0 := T();
      hide Good, HasRouter, Abs, Ensured;
      if k.nrt != 0 {
        var far := RouterOf(k.nrt);
      }
      var rt := RouterOf(k.rt);
      ghost var t2 := T();
      var x := unused;
      nodes := nodes[rt := nodes[rt].(links := [x] + nodes[rt].links, count := nodes[rt].count + 1)];
      states := states[x := LinkNode(k, e, rt)];
      links := [x] + links;
      linksCount := linksCount + 1;
      unused := unused + 1;
      AddedAll(t0, t2, T(), k, e, rt);
      OwnListBefore(t0, k, rt);
      assert nodes[rt].links == [links[0]] + if rt in old(nodes) then old(nodes)[rt].links else [];
    }

    method LinkStateAdd(k: Key, e: Entry)
      requires Valid() && k.rt != 0 && k !in Abs(T())
      modifies this
      ensures Valid() && Abs(T()) == old(Abs(T()))[k := e]
      ensures AddedLink(old(T()), T(), k, e) && AddedRouters(old(T()), T(), k)
    {
      var dup := LinkFind(k);
      FindsInDatabase(T(), k);
      assert dup == NotFound;
      LinkAdd(k, e);
    }

    /** What the protocol reads: the entry stored under a key, if there is one. */
    method LinkStateFind(k: Key) returns (found: bool, e: Entry)
      requires Valid()
      ensures found <==> k in Abs(T())
      ensures found ==> e == Abs(T())[k]
    {
      found, e := false, Entry(Info(0, 0, 0), 0, 0);
      FindsInDatabase(T(), k);
      if k.rt == 0 {
        return;
      }
      var r := LinkFind(k);
      if r.Found? {
        found, e := true, states[r.at].entry;
      }
    }

    /** Overwrites the entry of a key that is present; the lists, the routers and the counters stay. */
    method LinkStateUpdate(k: Key, e: Entry)
      requires Valid() && k.rt != 0 && k in Abs(T())
      modifies `states
      ensures Valid() && Abs(T()) == old(Abs(T()))[k := e]
      ensures states.Keys == old(states).Keys
    {
      hide Good, Abs, Scan;
      NewIsFresh(T());
      var r := LinkFind(k);
      FindsInDatabase(T(), k);
      UpdateKeeps(T(), r.at, e);
      hide LinksListed;
      states := states[r.at := states[r.at].(key := k, entry := e)];
    }

    method Gather(s: seq<nat>, w: Which) returns (out: seq<Link>)
      requires forall x :: x in s ==> x in states
      ensures out == Visited(s, states, w)
      ensures exists picked :: PickedFrom(s, picked) && Lists(out, picked, states)
    {
      out := [];
      var i := 0;
      while i < |s|
        invariant i <= |s| && out == Visited(s[..i], states, w)
      {
        assert s[..i + 1][..i] == s[..i];
        var x := states[s[i]];
        if Qualifies(w, x.key) {
          out := [Link(x.key, x.entry)] + out;
        }
        i := i + 1;
      }
      assert s[..i] == s;
      ghost var picked := VisitedBackwards(s, states, w);
    }

    /** cr_lsdb_get_links_state and cr_lsdb_get_backbone_links_state. */
    method GetLinksState(w: Which) returns (out: seq<Link>)
      requires Valid()
      ensures Complete(out, Abs(T()), w, Everywhere)
      ensures forall l :: l in out <==>
        l.key in Abs(T()) && Abs(T())[l.key] == l.entry && (match w
          case All => true
          case Backbone => l.key.nrt != 0
          case Access => l.key.nrt == 0)
    {
      VisitedComplete(T(), links, w, Everywhere);
      hide Complete, Visited;
      out := Gather(links, w);
    }

    /** The traversals of one router's list; an unknown router is an error. */
    method GetLinksStateByRouter(rt: nat, w: Which) returns (found: bool, out: seq<Link>)
      requires Valid()
      ensures found <==> HasRouter(T(), rt)
      ensures found ==> Complete(out, Abs(T()), w, At(rt))
      ensures found ==> forall l :: l in out <==>
        l.key in Abs(T()) && Abs(T())[l.key] == l.entry && l.key.rt == rt && (match w
          case All => true
          case Backbone => l.key.nrt != 0
          case Access => l.key.nrt == 0)
      ensures !found ==> out == []
    {
      out := [];
      var r := RouterFind(rt);
      found := r.Found?;
      if found {
        OwnScope(T(), r.at);
        VisitedComplete(T(), nodes[r.at].links, w, At(rt));
        hide Complete, Visited;
        out := Gather(nodes[r.at].links, w);
      }
    }
  }

  /** The tables with a router of that id. */
  ghost function Ensured(t: Tables, id: nat): Tables {
    if HasRouter(t, id) then t else WithRouter(t, id)
  }

  /** A new link at the head of the global list, the other links as they were. */
  ghost predicate AddedLink(t: Tables, t': Tables, k: Key, e: Entry) {
    && |t'.links| == |t.links| + 1 && t'.links[1..] == t.links
    && t'.links[0] in t'.states && t'.states[t'.links[0]].key == k && t'.states[t'.links[0]].entry == e
    && (forall x :: x in t.states ==> x in t'.states && t'.states[x] == t.states[x])
  }

  /** The routers a key names are known, and no others are new. */
  ghost predicate AddedRouters(t: Tables, t': Tables, k: Key) {
    forall id :: HasRouter(t', id) <==> HasRouter(t, id) || id == k.rt || (id == k.nrt && id != 0)
  }

  lemma EnsuredKeeps(t: Tables, id: nat)
    requires Good(t)
    ensures Good(Ensured(t, id))
    ensures Ensured(t, id).states == t.states && Ensured(t, id).links == t.links
    ensures forall i :: HasRouter(Ensured(t, id), i) <==> HasRouter(t, i) || i == id
  {
    if !HasRouter(t, id) {
      RouterKeeps(t, id);
    }
  }

  lemma WithLinkRouters(t: Tables, k: Key, e: Entry, r: nat, i: nat)
    requires r in t.nodes
    ensures HasRouter(WithLink(t, k, e, r), i) <==> HasRouter(t, i)
  {
    if HasRouter(t, i) {
      LinkKeepsRouters(t, k, e, r, i);
    }
  }

  /** Both routers of a key made, the far one first. */
  ghost function BothEnsured(t: Tables, k: Key): Tables {
    Ensured(if k.nrt != 0 then Ensured(t, k.nrt) else t, k.rt)
  }

  lemma BothKeep(t: Tables, k: Key)
    requires Good(t)
    ensures var t2 := BothEnsured(t, k);
      && Good(t2) && t2.states == t.states && t2.links == t.links
      && AddedRouters(t, t2, k)
  {
    hide HasRouter, Good;
    if k.nrt != 0 {
      EnsuredKeeps(t, k.nrt);
    }
    EnsuredKeeps(if k.nrt != 0 then Ensured(t, k.nrt) else t, k.rt);
  }

  lemma AddedGood(t2: Tables, k: Key, e: Entry, r: nat)
    requires Good(t2) && k.rt != 0 && k !in Abs(t2) && (k.nrt != 0 ==> HasRouter(t2, k.nrt))
    requires r in t2.nodes && t2.nodes[r].id == k.rt
    ensures Good(WithLink(t2, k, e, r)) && Abs(WithLink(t2, k, e, r)) == Abs(t2)[k := e]
  {
    hide Good, LinksListed, Abs, HasRouter;
    var t3 := WithLink(t2, k, e, r);
    NewIsFresh(t2);
    forall x | x in t2.states
      ensures t2.states[x].key != k
    {
      Located(t2, x);
    }
    LinkKeeps(t2, k, e, r);
    NewIsFresh(t3);
    AbsStored(t2, t3, t2.unused, k, e);
  }

  lemma AddedLinkNow(t: Tables, k: Key, e: Entry, r: nat)
    requires r in t.nodes && t.unused !in t.states
    ensures AddedLink(t, WithLink(t, k, e, r), k, e)
  {
  }

  lemma AddedRoutersNow(t: Tables, t2: Tables, k: Key, e: Entry, r: nat)
    requires AddedRouters(t, t2, k) && r in t2.nodes
    ensures AddedRouters(t, WithLink(t2, k, e, r), k)
  {
    hide HasRouter;
    forall i
      ensures HasRouter(WithLink(t2, k, e, r), i) <==> HasRouter(t2, i)
    {
      WithLinkRouters(t2, k, e, r, i);
    }
  }

  lemma AddedAll(t0: Tables, t2: Tables, t3: Tables, k: Key, e: Entry, r: nat)
    requires Good(t0) && k.rt != 0 && k !in Abs(t0) && t2 == BothEnsured(t0, k)
    requires r in t2.nodes && t2.nodes[r].id == k.rt && t3 == WithLink(t2, k, e, r)
    ensures Good(t3) && Abs(t3) == Abs(t0)[k := e] && AddedLink(t0, t3, k, e) && AddedRouters(t0, t3, k)
  {
    hide Good, HasRouter, BothEnsured, LinksListed, WithLink;
    BothKeep(t0, k);
    assert Abs(t2) == Abs(t0);
    assert k.nrt != 0 ==> HasRouter(t2, k.nrt);
    hide Abs;
    AddedGood(t2, k, e, r);
    NewIsFresh(t2);
    AddedLinkNow(t2, k, e, r);
    AddedRoutersNow(t0, t2, k, e, r);
    hide AddedRouters;
  }

  /** Making the routers a key names leaves the list of a router that was there, and gives a new one an empty list. */
  lemma OwnListBefore(t: Tables, k: Key, r: nat)
    requires Good(t) && r in BothEnsured(t, k).nodes
    ensures BothEnsured(t, k).nodes[r].links == if r in t.nodes then t.nodes[r].links else []
  {
    hide HasRouter;
  }

  lemma NewIsFresh(t: Tables)
    requires Good(t)
    ensures t.unused !in t.states && LinksListed(t)
  {
  }

  /** The two-level search answers what the database holds. */
  lemma FindsInDatabase(t: Tables, k: Key)
    requires Good(t)
    ensures Scan(t.links, t.states, k).Found? <==> k in Abs(t)
    ensures k in Abs(t) ==> k.rt != 0 && var x := Scan(t.links, t.states, k).at;
      x in t.states && t.states[x].key == k && t.states[x].entry == Abs(t)[k]
  {
    ScanFinds(t.links, t.states, k);
    AbsHas(t, k);
    if k in Abs(t) {
      var x :| x in t.states && t.states[x].key == k && Abs(t)[k] == t.states[x].entry;
      ScanIs(t, x);
      assert Anchored(t, t.states[x]);
    }
    forall x | x in t.states && t.states[x].key == k
      ensures k in Abs(t)
    {
      Located(t, x);
    }
  }

  lemma UpdateKeeps(t: Tables, x: nat, e: Entry)
    requires Good(t) && x in t.states
    ensures Good(WithEntry(t, x, e)) && Abs(WithEntry(t, x, e)) == Abs(t)[t.states[x].key := e]
  {
    EntryKeeps(t, x, e);
    AbsStored(t, WithEntry(t, x, e), x, t.states[x].key, e);
  }

  lemma OwnerKnown(t: Tables, k: Key)
    requires Good(t) && !HasRouter(t, k.rt)
    ensures forall x :: x in t.states ==> t.states[x].key != k
  {
  }

  lemma OnOwnList(t: Tables, r: nat, k: Key)
    requires Good(t) && r in t.nodes && t.nodes[r].id == k.rt
    ensures forall x :: x in t.states && t.states[x].key == k ==> x in t.nodes[r].links
  {
  }
}

/** The doubly indexed link state database of lsdb/ as values, and what makes its two indexes agree. */
module LsdbTables {
  import opened LinkStates
  import opened Sequences

  /** A router with the list of its own links; addresses stand for references. */
  datatype RouterNode = RouterNode(id: nat, links: seq<nat>, count: nat)

  datatype LinkNode = LinkNode(key: Key, entry: Entry, rt: nat)

  datatype Tables = Tables(nodes: map<nat, RouterNode>, states: map<nat, LinkNode>,
                           routers: seq<nat>, links: seq<nat>,
                           routersCount: nat, linksCount: nat, unused: nat)

  const EMPTY := Tables(map[], map[], [], [], 0, 0, 1)

  ghost predicate HasRouter(t: Tables, id: nat) {
    exists r :: r in t.nodes && t.nodes[r].id == id
  }

  /** Every router is listed once and router ids are unique. */
  ghost predicate RoutersListed(t: Tables) {
    && NoRepeat(t.routers) && t.routersCount == |t.routers|
    && (forall r :: r in t.routers <==> r in t.nodes)
    && (forall r, q :: r in t.nodes && q in t.nodes && t.nodes[r].id == t.nodes[q].id ==> r == q)
  }

  /** Every link is on the global list once and link keys are unique. */
  ghost predicate LinksListed(t: Tables) {
    && NoRepeat(t.links) && t.linksCount == |t.links|
    && (forall x :: x in t.links <==> x in t.states)
    && (forall x, y :: x in t.states && y in t.states && t.states[x].key == t.states[y].key ==> x == y)
  }

  /** A router's list holds its own links and no other, each once. */
  ghost predicate Owns(t: Tables, r: nat, node: RouterNode) {
    && NoRepeat(node.links) && node.count == |node.links|
    && (forall x :: x in node.links <==> x in t.states && t.states[x].rt == r)
  }

  /** A link points to the router its key names, and the far router, if any, is known too. */
  ghost predicate Anchored(t: Tables, x: LinkNode) {
    && x.rt in t.nodes && t.nodes[x.rt].id == x.key.rt && x.key.rt != 0
    && (x.key.nrt != 0 ==> HasRouter(t, x.key.nrt))
  }

  ghost predicate Good(t: Tables) {
    && RoutersListed(t)
    && LinksListed(t)
    && (forall r :: r in t.nodes ==> Owns(t, r, t.nodes[r]))
    && (forall x :: x in t.states ==> Anchored(t, t.states[x]))
    && (forall r :: r in t.nodes ==> r < t.unused)
    && (forall x :: x in t.states ==> x < t.unused)
  }

  lemma NoRepeatPrepended(s: seq<nat>, x: nat)
    requires NoRepeat(s) && x !in s
    ensures NoRepeat([x] + s)
  {
  }

  /** A router put at the head of the list. */
  function WithRouter(t: Tables, id: nat): Tables {
    t.(nodes := t.nodes[t.unused := RouterNode(id, [], 0)], routers := [t.unused] + t.routers,
       routersCount := t.routersCount + 1, unused := t.unused + 1)
  }

  lemma RouterKeeps(t: Tables, id: nat)
    requires Good(t) && !HasRouter(t, id)
    ensures Good(WithRouter(t, id))
    ensures forall i :: HasRouter(WithRouter(t, id), i) <==> HasRouter(t, i) || i == id
  {
    var t' := WithRouter(t, id);
    NoRepeatPrepended(t.routers, t.unused);
    forall i
      ensures HasRouter(t', i) <==> HasRouter(t, i) || i == id
    {
      if HasRouter(t, i) {
        var r :| r in t.nodes && t.nodes[r].id == i;
        assert r in t'.nodes && t'.nodes[r].id == i;
      }
      if i == id {
        assert t'.nodes[t.unused].id == id;
      }
    }
    hide HasRouter, NoRepeat;
    forall r | r in t'.nodes
      ensures Owns(t', r, t'.nodes[r])
    {
      if r in t.nodes {
        assert Owns(t, r, t.nodes[r]);
      }
    }
    forall x | x in t'.states
      ensures Anchored(t', t'.states[x])
    {
      assert Anchored(t, t.states[x]);
    }
  }

  /** A link put at the head of the global list and of its router's list. */
  function WithLink(t: Tables, k: Key, e: Entry, r: nat): Tables
    requires r in t.nodes
  {
    var node := t.nodes[r];
    t.(nodes := t.nodes[r := node.(links := [t.unused] + node.links, count := node.count + 1)],
       states := t.states[t.unused := LinkNode(k, e, r)], links := [t.unused] + t.links,
       linksCount := t.linksCount + 1, unused := t.unused + 1)
  }

  lemma LinkKeepsLists(t: Tables, k: Key, e: Entry, r: nat)
    requires Good(t) && r in t.nodes && forall x :: x in t.states ==> t.states[x].key != k
    ensures RoutersListed(WithLink(t, k, e, r)) && LinksListed(WithLink(t, k, e, r))
  {
    NoRepeatPrepended(t.links, t.unused);
    hide Owns, Anchored, NoRepeat;
  }

  lemma LinkKeepsOwners(t: Tables, k: Key, e: Entry, r: nat, q: nat)
    requires Good(t) && r in t.nodes && q in t.nodes
    ensures var t' := WithLink(t, k, e, r); q in t'.nodes && Owns(t', q, t'.nodes[q])
  {
    assert Owns(t, q, t.nodes[q]);
    NoRepeatPrepended(t.nodes[q].links, t.unused);
    hide RoutersListed, LinksListed, Anchored, NoRepeat;
  }

  lemma LinkKeepsRouters(t: Tables, k: Key, e: Entry, r: nat, i: nat)
    requires r in t.nodes && HasRouter(t, i)
    ensures HasRouter(WithLink(t, k, e, r), i)
  {
    var t' := WithLink(t, k, e, r);
    var q :| q in t.nodes && t.nodes[q].id == i;
    assert q in t'.nodes && t'.nodes[q].id == i;
  }

  lemma LinkKeeps(t: Tables, k: Key, e: Entry, r: nat)
    requires Good(t) && r in t.nodes && t.nodes[r].id == k.rt && k.rt != 0
    requires k.nrt != 0 ==> HasRouter(t, k.nrt)
    requires forall x :: x in t.states ==> t.states[x].key != k
    ensures Good(WithLink(t, k, e, r))
  {
    var t', y := WithLink(t, k, e, r), t.unused;
    LinkKeepsLists(t, k, e, r);
    forall q | q in t'.nodes
      ensures Owns(t', q, t'.nodes[q])
    {
      LinkKeepsOwners(t, k, e, r, q);
    }
    hide HasRouter, RoutersListed, LinksListed, Owns;
    forall x | x in t'.states
      ensures Anchored(t', t'.states[x])
    {
      if x != y {
        assert Anchored(t, t.states[x]);
      }
      if t'.states[x].key.nrt != 0 {
        LinkKeepsRouters(t, k, e, r, t'.states[x].key.nrt);
      }
    }
  }

  /** A link's contents overwritten. */
  function WithEntry(t: Tables, x: nat, e: Entry): Tables
    requires x in t.states
  {
    t.(states := t.states[x := t.states[x].(entry := e)])
  }

  lemma EntryKeeps(t: Tables, x: nat, e: Entry)
    requires Good(t) && x in t.states
    ensures Good(WithEntry(t, x, e))
  {
    var t' := WithEntry(t, x, e);
    forall r | r in t'.nodes
      ensures Owns(t', r, t'.nodes[r])
    {
      assert Owns(t, r, t.nodes[r]);
    }
    forall y | y in t'.states
      ensures Anchored(t', t'.states[y])
    {
      assert Anchored(t, t.states[y]);
      assert t'.nodes == t.nodes;
    }
  }

  ghost function Keys(states: map<nat, LinkNode>): set<Key> {
    set x | x in states :: states[x].key
  }

  ghost function Locate(states: map<nat, LinkNode>, k: Key): (x: nat)
    requires k in Keys(states)
    ensures x in states && states[x].key == k
  {
    var x :| x in states && states[x].key == k;
    x
  }

  /** The database as the protocol sees it: what is stored under each key. */
  ghost function Abs(t: Tables): Db {
    map k | k in Keys(t.states) :: t.states[Locate(t.states, k)].entry
  }

  lemma Located(t: Tables, x: nat)
    requires LinksListed(t) && x in t.states
    ensures t.states[x].key in Abs(t) && Abs(t)[t.states[x].key] == t.states[x].entry
  {
  }

  /** The entry under a key is that of a link with this key. */
  lemma AbsHas(t: Tables, c: Key)
    requires LinksListed(t)
    ensures c in Abs(t) ==> exists x :: x in t.states && t.states[x].key == c && Abs(t)[c] == t.states[x].entry
  {
  }

  ghost predicate Stored(t: Tables, t': Tables, y: nat, k: Key, e: Entry) {
    && LinksListed(t) && LinksListed(t')
    && t'.states.Keys == t.states.Keys + {y} && t'.states[y].key == k && t'.states[y].entry == e
    && (y in t.states ==> t.states[y].key == k)
    && (forall x :: x in t.states && x != y ==> t'.states[x] == t.states[x])
  }

  lemma AbsAtKey(t: Tables, t': Tables, y: nat, k: Key, e: Entry, c: Key)
    requires Stored(t, t', y, k, e)
    ensures c in Abs(t') <==> c in Abs(t) || c == k
    ensures c == k ==> Abs(t')[c] == e
    ensures c in Abs(t) && c != k ==> Abs(t')[c] == Abs(t)[c]
  {
    Located(t', y);
    AbsHas(t, c);
    AbsHas(t', c);
    hide Abs, LinksListed;
    if c in Abs(t) && c != k {
      var x :| x in t.states && t.states[x].key == c && Abs(t)[c] == t.states[x].entry;
      Located(t', x);
    }
    if c in Abs(t') && c != k {
      var x :| x in t'.states && t'.states[x].key == c;
      Located(t, x);
    }
  }

  /** Storing a link under a key that is unused, or overwriting the link that has it, is a map update. */
  lemma AbsStored(t: Tables, t': Tables, y: nat, k: Key, e: Entry)
    requires Stored(t, t', y, k, e)
    ensures Abs(t') == Abs(t)[k := e]
  {
    hide Abs, Stored;
    forall c: Key
      ensures c in Abs(t') <==> c in Abs(t) || c == k
      ensures c == k ==> Abs(t')[c] == e
      ensures c in Abs(t) && c != k ==> Abs(t')[c] == Abs(t)[c]
    {
      AbsAtKey(t, t', y, k, e, c);
    }
  }

  datatype Find = NotFound | Found(at: nat)

  /** A plain scan of the global list. */
  function Scan(links: seq<nat>, states: map<nat, LinkNode>, k: Key): Find
    requires forall x :: x in links ==> x in states
  {
    if links == [] then NotFound
    else if states[links[0]].key == k then Found(links[0])
    else Scan(links[1..], states, k)
  }

  /** The scan finds a key exactly when the database has it, and then its entry. */
  lemma {:induction false} ScanFinds(links: seq<nat>, states: map<nat, LinkNode>, k: Key)
    requires forall x :: x in links ==> x in states
    ensures Scan(links, states, k) == NotFound <==> forall x :: x in links ==> states[x].key != k
    ensures Scan(links, states, k).Found? ==>
      Scan(links, states, k).at in links && states[Scan(links, states, k).at].key == k
  {
    if links != [] && states[links[0]].key != k {
      ScanFinds(links[1..], states, k);
    }
  }

  /** Whatever holds the key is what the scan finds. */
  lemma ScanIs(t: Tables, x: nat)
    requires LinksListed(t) && x in t.states
    ensures Scan(t.links, t.states, t.states[x].key) == Found(x)
  {
    ScanFinds(t.links, t.states, t.states[x].key);
  }
}

/**
  The memory of a route table (lib/table.c): nodes named by references, 0 being
  NULL, and what inserting and removing nodes keeps of the tree they form.
 */
module TrieStores {
  /** A route_node; `key` is the bits of its prefix, and `info` 0 stands for NULL. */
  datatype Node = Node(key: seq<bool>, parent: nat, left: nat, right: nat, lock: nat, info: nat)
  {
    function Child(bit: bool): nat {
      if bit then right else left
    }

    function WithChild(bit: bool, c: nat): Node {
      if bit then this.(right := c) else this.(left := c)
    }
  }

  type Store = map<nat, Node>

  /** Link c is absent or leads to a node whose key extends node n's by `bit`, and which points back. */
  predicate LinkOk(st: Store, n: nat, bit: bool)
    requires n in st
  {
    var c := st[n].Child(bit);
    c != 0 ==> c in st && st[c].parent == n && st[n].key < st[c].key && st[c].key[|st[n].key|] == bit
  }

  /** The parent link is absent for the top node alone, and is one of the parent's child links. */
  predicate ParentOk(st: Store, top: nat, n: nat)
    requires n in st
  {
    var a := st[n].parent;
    if a == 0 then n == top else n != top && a in st && (st[a].left == n || st[a].right == n)
  }

  predicate Linked(st: Store, top: nat) {
    && 0 !in st && (if top == 0 then st == map[] else top in st && st[top].parent == 0)
    && (forall n :: n in st ==> NodeOk(st, top, n))
  }

  predicate Unique(st: Store) {
    forall a, b :: a in st && b in st && st[a].key == st[b].key ==> a == b
  }

  /** Below a node, every node whose key extends its key is reached through the link for its next bit. */
  predicate Leads(st: Store, a: nat, b: nat)
    requires a in st && b in st
  {
    st[a].key < st[b].key ==>
      var c := st[a].Child(st[b].key[|st[a].key|]);
      c in st && st[c].key <= st[b].key
  }

  predicate Covering(st: Store, top: nat) {
    && (forall a, b :: a in st && b in st ==> Leads(st, a, b))
    && (forall b :: b in st ==> top in st && st[top].key <= st[b].key)
  }

  ghost predicate Tree(st: Store, top: nat) {
    Linked(st, top) && Unique(st) && Covering(st, top)
  }

  // ----- a new leaf below node a, on a free link -----

  function Hang(st: Store, a: nat, bit: bool, id: nat, node: Node): Store
    requires a in st
  {
    st[a := st[a].WithChild(bit, id)][id := node.(parent := a)]
  }

  predicate CanHang(st: Store, a: nat, bit: bool, id: nat, node: Node) {
    && a in st && id !in st && id != 0 && node.left == 0 && node.right == 0
    && st[a].key < node.key && node.key[|st[a].key|] == bit && st[a].Child(bit) == 0
  }

  /** The two links and the parent link of node n. */
  predicate NodeOk(st: Store, top: nat, n: nat)
    requires n in st
  {
    LinkOk(st, n, false) && LinkOk(st, n, true) && ParentOk(st, top, n)
  }

  /** Nothing in the tree extends the new key, nor has it. */
  lemma HangIsNew(st: Store, a: nat, bit: bool, id: nat, node: Node, b: nat)
    requires CanHang(st, a, bit, id, node) && 0 !in st && b in st && Leads(st, a, b)
    ensures !(node.key <= st[b].key)
  {
  }

  lemma HangLinks(st: Store, top: nat, a: nat, bit: bool, id: nat, node: Node, n: nat)
    requires CanHang(st, a, bit, id, node) && 0 !in st && n in st && NodeOk(st, top, n) && top in st
    ensures NodeOk(Hang(st, a, bit, id, node), top, n) && NodeOk(Hang(st, a, bit, id, node), top, id)
  {
  }

  lemma HangLeads(st: Store, a: nat, bit: bool, id: nat, node: Node, x: nat, y: nat)
    requires CanHang(st, a, bit, id, node) && 0 !in st
    requires x == id || (x in st && Leads(st, a, x) && Leads(st, x, a))
    requires y == id || (y in st && Leads(st, a, y))
    requires x in st && y in st ==> Leads(st, x, y)
    requires x in st && st[x].key == st[a].key ==> x == a
    ensures Leads(Hang(st, a, bit, id, node), x, y)
  {
  }

  lemma HangKeeps(st: Store, top: nat, a: nat, bit: bool, id: nat, node: Node)
    requires Tree(st, top) && CanHang(st, a, bit, id, node)
    ensures Tree(Hang(st, a, bit, id, node), top)
  {
    hide NodeOk, Leads;
    var st' := Hang(st, a, bit, id, node);
    forall n | n in st
      ensures NodeOk(st', top, n) && NodeOk(st', top, id)
    {
      HangLinks(st, top, a, bit, id, node, n);
    }
    forall x, y | x in st' && y in st'
      ensures Leads(st', x, y)
    {
      HangLeads(st, a, bit, id, node, x, y);
    }
    forall b | b in st
      ensures st[b].key != node.key
    {
      HangIsNew(st, a, bit, id, node, b);
    }
    assert st[top].key <= st[a].key;
  }

  // ----- a new node g between d and its parent a, or on top of d if a is 0 -----

  /** Node g takes the place of d, which was link `bit` of a, and gets d as its only child. */
  function Insert(st: Store, a: nat, bit: bool, d: nat, g: nat, node: Node): Store
    requires d in st && (a != 0 ==> a in st) && |node.key| < |st[d].key|
  {
    var st1 := if a == 0 then st else st[a := st[a].WithChild(bit, g)];
    st1[d := st[d].(parent := g)][g := node.(parent := a).WithChild(st[d].key[|node.key|], d)]
  }

  predicate CanInsert(st: Store, a: nat, bit: bool, d: nat, g: nat, node: Node) {
    && d in st && st[d].parent == a && g !in st && g != 0 && 0 !in st && node.left == 0 && node.right == 0
    && node.key < st[d].key
    && (a != 0 ==> Above(st, a, bit, d) && st[a].key < node.key)
  }

  /** Node a has d as its link `bit`. */
  predicate Above(st: Store, a: nat, bit: bool, d: nat)
    requires d in st
  {
    a in st && a != d && st[a].Child(bit) == d && st[a].key < st[d].key && st[d].key[|st[a].key|] == bit
  }

  lemma InsertAtNew(st: Store, top: nat, a: nat, bit: bool, d: nat, g: nat, node: Node)
    requires CanInsert(st, a, bit, d, g, node) && NodeOk(st, top, d) && top in st
    ensures var st', top' := Insert(st, a, bit, d, g, node), if a == 0 then g else top;
            NodeOk(st', top', g) && NodeOk(st', top', d)
  {
  }

  lemma InsertAtParent(st: Store, top: nat, a: nat, bit: bool, d: nat, g: nat, node: Node)
    requires CanInsert(st, a, bit, d, g, node) && a != 0 && NodeOk(st, top, a)
    ensures NodeOk(Insert(st, a, bit, d, g, node), top, a)
  {
  }

  lemma InsertElsewhere(st: Store, top: nat, a: nat, bit: bool, d: nat, g: nat, node: Node, n: nat)
    requires CanInsert(st, a, bit, d, g, node) && NodeOk(st, top, d) && top in st
    requires n in st && n != a && n != d && NodeOk(st, top, n)
    ensures NodeOk(Insert(st, a, bit, d, g, node), if a == 0 then g else top, n)
  {
  }

  /** Whatever extends a's key by `bit`, or anything under the top, extends d's key. */
  predicate Under(st: Store, a: nat, bit: bool, d: nat, x: nat)
    requires d in st && x in st && (a != 0 ==> a in st)
  {
    (if a == 0 then true else st[a].key < st[x].key && st[x].key[|st[a].key|] == bit) ==> st[d].key <= st[x].key
  }

  lemma InsertLeadsFromNew(st: Store, a: nat, bit: bool, d: nat, g: nat, node: Node, y: nat)
    requires CanInsert(st, a, bit, d, g, node) && y in st && Under(st, a, bit, d, y)
    ensures Leads(Insert(st, a, bit, d, g, node), g, y)
  {
  }

  lemma InsertLeadsToNew(st: Store, a: nat, bit: bool, d: nat, g: nat, node: Node, x: nat)
    requires CanInsert(st, a, bit, d, g, node) && x in st && Under(st, a, bit, d, x) && Leads(st, x, d)
    requires a != 0 ==> Leads(st, x, a) && (st[x].key == st[a].key ==> x == a)
    ensures Leads(Insert(st, a, bit, d, g, node), x, g)
  {
  }

  lemma InsertLeadsOld(st: Store, a: nat, bit: bool, d: nat, g: nat, node: Node, x: nat, y: nat)
    requires CanInsert(st, a, bit, d, g, node) && x in st && y in st && Leads(st, x, y)
    ensures Leads(Insert(st, a, bit, d, g, node), x, y)
  {
  }

  lemma UnderHolds(st: Store, top: nat, a: nat, bit: bool, d: nat, x: nat)
    requires d in st && x in st && NodeOk(st, top, d) && st[d].parent == a
    requires a != 0 ==> Above(st, a, bit, d) && Leads(st, a, x)
    requires a == 0 ==> top in st && st[top].key <= st[x].key
    ensures Under(st, a, bit, d, x)
  {
  }

  lemma InsertLinked(st: Store, top: nat, a: nat, bit: bool, d: nat, g: nat, node: Node)
    requires Linked(st, top) && CanInsert(st, a, bit, d, g, node)
    ensures Linked(Insert(st, a, bit, d, g, node), if a == 0 then g else top)
  {
    hide NodeOk;
    var st', top' := Insert(st, a, bit, d, g, node), if a == 0 then g else top;
    InsertAtNew(st, top, a, bit, d, g, node);
    if a != 0 {
      InsertAtParent(st, top, a, bit, d, g, node);
    }
    forall n | n in st'
      ensures NodeOk(st', top', n)
    {
      if n != a && n != d && n != g {
        InsertElsewhere(st, top, a, bit, d, g, node, n);
      }
    }
  }

  lemma AllUnder(st: Store, top: nat, a: nat, bit: bool, d: nat, g: nat, node: Node, x: nat)
    requires Tree(st, top) && CanInsert(st, a, bit, d, g, node) && x in st
    ensures Under(st, a, bit, d, x) && st[x].key != node.key
  {
    hide NodeOk, Leads, Under, Unique;
    UnderHolds(st, top, a, bit, d, x);
    KeyIsNew(st, a, bit, d, g, node, x);
  }

  lemma InsertCovering(st: Store, top: nat, a: nat, bit: bool, d: nat, g: nat, node: Node)
    requires Tree(st, top) && CanInsert(st, a, bit, d, g, node)
    ensures Covering(Insert(st, a, bit, d, g, node), if a == 0 then g else top)
  {
    hide NodeOk, Leads, Under;
    var st' := Insert(st, a, bit, d, g, node);
    forall x, y | x in st' && y in st'
      ensures Leads(st', x, y)
    {
      if x != g {
        AllUnder(st, top, a, bit, d, g, node, x);
      }
      if x != g && y != g {
        InsertLeadsOld(st, a, bit, d, g, node, x, y);
      } else if x != g {
        InsertLeadsToNew(st, a, bit, d, g, node, x);
      } else if y != g {
        AllUnder(st, top, a, bit, d, g, node, y);
        InsertLeadsFromNew(st, a, bit, d, g, node, y);
      } else {
        LeadsSelf(st', g);
      }
    }
    TopAfterInsert(st, top, a, bit, d, g, node);
  }

  lemma InsertKeeps(st: Store, top: nat, a: nat, bit: bool, d: nat, g: nat, node: Node)
    requires Tree(st, top) && CanInsert(st, a, bit, d, g, node)
    ensures Tree(Insert(st, a, bit, d, g, node), if a == 0 then g else top)
  {
    hide Linked, Covering;
    InsertLinked(st, top, a, bit, d, g, node);
    InsertCovering(st, top, a, bit, d, g, node);
    forall x | x in st
      ensures st[x].key != node.key
    {
      AllUnder(st, top, a, bit, d, g, node, x);
    }
  }

  lemma LeadsSelf(st: Store, x: nat)
    requires x in st
    ensures Leads(st, x, x)
  {
  }

  lemma KeyIsNew(st: Store, a: nat, bit: bool, d: nat, g: nat, node: Node, x: nat)
    requires CanInsert(st, a, bit, d, g, node) && x in st && Under(st, a, bit, d, x)
    ensures st[x].key != node.key
  {
  }

  lemma InsertFields(st: Store, a: nat, bit: bool, d: nat, g: nat, node: Node, x: nat)
    requires CanInsert(st, a, bit, d, g, node) && x in st
    ensures var st' := Insert(st, a, bit, d, g, node);
            && x in st' && st'[x].key == st[x].key && st'[x].lock == st[x].lock && st'[x].info == st[x].info
            && st'[x].parent == (if x == d then g else st[x].parent)
            && (forall b :: st'[x].Child(b) == if a != 0 && x == a && b == bit then g else st[x].Child(b))
            && (forall y :: y in st' <==> y in st || y == g)
            && st'[g] == node.(parent := a).WithChild(st[d].key[|node.key|], d)
  {
  }

  lemma RootIsTop(st: Store, top: nat, d: nat)
    requires Linked(st, top) && d in st && st[d].parent == 0
    ensures d == top
  {
  }

  lemma TopAfterInsert(st: Store, top: nat, a: nat, bit: bool, d: nat, g: nat, node: Node)
    requires Tree(st, top) && CanInsert(st, a, bit, d, g, node)
    ensures var st', top' := Insert(st, a, bit, d, g, node), if a == 0 then g else top;
            top' in st' && st'[top'].parent == 0 && forall b :: b in st' ==> st'[top'].key <= st'[b].key
  {
    if a == 0 {
      RootIsTop(st, top, d);
    } else {
      assert st[top].key <= st[a].key;
      if d == top {
        NodeOkOf(st, top, d);
      }
    }
    hide Leads, Unique, Insert, NodeOk;
    var st', top' := Insert(st, a, bit, d, g, node), if a == 0 then g else top;
    InsertFields(st, a, bit, d, g, node, top);
    forall b | b in st'
      ensures st'[top'].key <= st'[b].key
    {
      if b != g {
        InsertFields(st, a, bit, d, g, node, b);
      }
    }
  }

  // ----- removing node n, which has at most one child -----

  function OnlyChild(node: Node): nat {
    if node.left != 0 then node.left else node.right
  }

  /** Node n is gone and its only child, if any, has taken its place. */
  function Splice(st: Store, n: nat, bit: bool): Store
    requires n in st
  {
    var a, c := st[n].parent, OnlyChild(st[n]);
    var st1 := if c in st then st[c := st[c].(parent := a)] else st;
    var st2 := if a in st1 then st1[a := st1[a].WithChild(bit, c)] else st1;
    st2 - {n}
  }

  predicate CanSplice(st: Store, top: nat, n: nat, bit: bool) {
    && n in st && 0 !in st && (st[n].left == 0 || st[n].right == 0) && NodeOk(st, top, n)
    && (st[n].parent != 0 ==> Above(st, st[n].parent, bit, n))
  }

  function TopAfterSplice(st: Store, top: nat, n: nat): nat
    requires n in st
  {
    if st[n].parent == 0 then OnlyChild(st[n]) else top
  }

  lemma SpliceAtParent(st: Store, top: nat, n: nat, bit: bool)
    requires CanSplice(st, top, n, bit) && st[n].parent != 0 && NodeOk(st, top, st[n].parent)
    requires OnlyChild(st[n]) in st ==> NodeOk(st, top, OnlyChild(st[n]))
    ensures var a := st[n].parent;
            a in Splice(st, n, bit) && NodeOk(Splice(st, n, bit), top, a)
  {
    var a, c := st[n].parent, OnlyChild(st[n]);
    var other := st[a].Child(!bit);
    assert other != n && (c != 0 ==> c != a && c != n && c != other);
  }

  lemma SpliceAtChild(st: Store, top: nat, n: nat, bit: bool)
    requires CanSplice(st, top, n, bit) && OnlyChild(st[n]) != 0
    requires NodeOk(st, top, OnlyChild(st[n]))
    ensures var c := OnlyChild(st[n]);
            c in Splice(st, n, bit) && NodeOk(Splice(st, n, bit), TopAfterSplice(st, top, n), c)
  {
  }

  lemma SpliceElsewhere(st: Store, top: nat, n: nat, bit: bool, x: nat)
    requires CanSplice(st, top, n, bit) && x in st && x != n && x != st[n].parent && x != OnlyChild(st[n])
    requires NodeOk(st, top, x)
    ensures x in Splice(st, n, bit) && NodeOk(Splice(st, n, bit), TopAfterSplice(st, top, n), x)
  {
  }

  lemma SpliceFields(st: Store, top: nat, n: nat, bit: bool, x: nat)
    requires CanSplice(st, top, n, bit) && x in st && x != n
    ensures var st' := Splice(st, n, bit);
            && x in st' && st'[x].key == st[x].key && st'[x].lock == st[x].lock && st'[x].info == st[x].info
            && (forall b ::
                st'[x].Child(b) == if x == st[n].parent && b == bit then OnlyChild(st[n]) else st[x].Child(b))
  {
  }

  lemma SpliceLeads(st: Store, top: nat, n: nat, bit: bool, x: nat, y: nat)
    requires CanSplice(st, top, n, bit) && x in st && y in st && x != n && y != n
    requires Leads(st, x, y) && Leads(st, n, y) && st[n].key != st[y].key
    requires NodeOk(st, top, x)
    ensures x in Splice(st, n, bit) && y in Splice(st, n, bit) && Leads(Splice(st, n, bit), x, y)
  {
    hide Splice;
    SpliceFields(st, top, n, bit, x);
    SpliceFields(st, top, n, bit, y);
    if st[x].key < st[y].key {
      var k := st[x].Child(st[y].key[|st[x].key|]);
      if k != n {
        SpliceFields(st, top, n, bit, k);
      } else {
        assert st[n].key < st[y].key;
        SpliceFields(st, top, n, bit, OnlyChild(st[n]));
      }
    }
  }

  lemma SpliceEnds(st: Store, top: nat, n: nat, bit: bool)
    requires CanSplice(st, top, n, bit)
    ensures var a, c := st[n].parent, OnlyChild(st[n]);
            && (if a == 0 then n == top else a in st && a != n)
            && (c != 0 ==> c in st && c != n)
  {
  }

  lemma SpliceLinked(st: Store, top: nat, n: nat, bit: bool)
    requires Tree(st, top) && CanSplice(st, top, n, bit)
    ensures Linked(Splice(st, n, bit), TopAfterSplice(st, top, n))
  {
    var st', top', a, c := Splice(st, n, bit), TopAfterSplice(st, top, n), st[n].parent, OnlyChild(st[n]);
    SpliceEnds(st, top, n, bit);
    SpliceKeys(st, n, bit);
    SpliceTop(st, top, n, bit);
    hide NodeOk, Splice, Unique, Covering;
    forall x | x in st'
      ensures NodeOk(st', top', x)
    {
      if x == a {
        SpliceAtParent(st, top, n, bit);
      } else if x == c {
        SpliceAtChild(st, top, n, bit);
      } else {
        SpliceElsewhere(st, top, n, bit, x);
      }
    }
  }

  /** The new top covers everything, and is absent only from an empty tree. */
  lemma SpliceTop(st: Store, top: nat, n: nat, bit: bool)
    requires Tree(st, top) && CanSplice(st, top, n, bit)
    ensures var st', top' := Splice(st, n, bit), TopAfterSplice(st, top, n);
            && (if top' == 0 then st' == map[] else top' in st' && st'[top'].parent == 0)
            && (forall b :: b in st' ==> top' in st' && st'[top'].key <= st'[b].key)
  {
    var st', top' := Splice(st, n, bit), TopAfterSplice(st, top, n);
    assert NodeOk(st, top, n);
    hide LinkOk, Splice;
    forall b | b in st && b != n
      ensures top' in st && st[top'].key <= st[b].key && b in st' && top' in st' && st'[top'].key <= st'[b].key
    {
      SpliceFields(st, top, n, bit, b);
      if st[n].parent == 0 {
        assert st[n].key <= st[b].key && Leads(st, n, b);
      }
      SpliceFields(st, top, n, bit, top');
    }
    SpliceKeys(st, n, bit);
    if top' == 0 {
      assert st' == map[];
    } else if st[n].parent == 0 {
      SpliceRoot(st, top, n, bit);
    } else {
      SpliceRootStays(st, top, n, bit);
    }
  }

  lemma SpliceKeys(st: Store, n: nat, bit: bool)
    requires n in st
    ensures forall x :: x in Splice(st, n, bit) <==> x in st && x != n
  {
  }

  lemma SpliceRoot(st: Store, top: nat, n: nat, bit: bool)
    requires CanSplice(st, top, n, bit) && st[n].parent == 0 && OnlyChild(st[n]) != 0
    ensures var c := OnlyChild(st[n]); c in Splice(st, n, bit) && Splice(st, n, bit)[c].parent == 0
  {
  }

  lemma SpliceRootStays(st: Store, top: nat, n: nat, bit: bool)
    requires CanSplice(st, top, n, bit) && st[n].parent != 0 && top in st && st[top].parent == 0
    ensures top in Splice(st, n, bit) && Splice(st, n, bit)[top].parent == 0
  {
  }

  lemma SpliceKeeps(st: Store, top: nat, n: nat, bit: bool)
    requires Tree(st, top) && CanSplice(st, top, n, bit)
    ensures Tree(Splice(st, n, bit), TopAfterSplice(st, top, n))
  {
    hide Splice, Linked, Leads;
    var st' := Splice(st, n, bit);
    SpliceLinked(st, top, n, bit);
    SpliceTop(st, top, n, bit);
    SpliceKeys(st, n, bit);
    forall x, y | x in st' && y in st'
      ensures Leads(st', x, y) && (st'[x].key == st'[y].key ==> x == y)
    {
      NodeOkOf(st, top, x);
      SpliceLeads(st, top, n, bit, x, y);
      SpliceFields(st, top, n, bit, x);
      SpliceFields(st, top, n, bit, y);
    }
  }

  lemma NodeOkOf(st: Store, top: nat, x: nat)
    requires Linked(st, top) && x in st
    ensures NodeOk(st, top, x)
  {
  }
}

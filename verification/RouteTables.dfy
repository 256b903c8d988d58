/**
  The route table (lib/table.c): a path-compressed trie of reference-counted nodes
  that refines a map from prefixes to info.
 */
module RouteTables {
  import opened Prefixes
  import opened TrieStores
  import opened TrieIteration

  /** A struct route_node in memory. */
  datatype RouteNode = RouteNode(p: Prefix, parent: nat, left: nat, right: nat, lock: nat, info: nat)
  {
    function Child(bit: bool): nat {
      if bit then right else left
    }

    function WithChild(bit: bool, c: nat): RouteNode {
      if bit then this.(right := c) else this.(left := c)
    }

    function Abs(): Node
      requires Valid(p)
    {
      Node(Bits(p), parent, left, right, lock, info)
    }
  }

  type Memory = map<nat, RouteNode>

  predicate Sized(mem: Memory, size: nat) {
    forall n :: n in mem ==> Valid(mem[n].p) && |mem[n].p.bytes| == size
  }

  function Abs(mem: Memory, size: nat): (st: Store)
    requires Sized(mem, size)
    ensures st.Keys == mem.Keys && forall n :: n in mem ==> st[n] == mem[n].Abs()
  {
    map n | n in mem :: mem[n].Abs()
  }

  lemma AbsUpdate(mem: Memory, size: nat, n: nat, node: RouteNode)
    requires Sized(mem, size) && Valid(node.p) && |node.p.bytes| == size
    ensures Sized(mem[n := node], size) && Abs(mem[n := node], size) == Abs(mem, size)[n := node.Abs()]
  {
  }

  /** A node nobody holds is glue: it has no info and two children. */
  predicate Held(node: Node) {
    node.lock > 0 || (node.info == 0 && node.left != 0 && node.right != 0)
  }

  predicate AllHeld(st: Store) {
    forall n :: n in st ==> Held(st[n])
  }

  ghost predicate Good(st: Store, top: nat) {
    Tree(st, top) && AllHeld(st)
  }

  /** The map from prefixes to info that the table stands for, as its graph. */
  function Routes(st: Store): set<(seq<bool>, nat)> {
    set n | n in st && st[n].info != 0 :: (st[n].key, st[n].info)
  }

  /** Every prefix has at most one info. */
  lemma RoutesIsMap(st: Store, top: nat, k: seq<bool>, i: nat, j: nat)
    requires Tree(st, top) && (k, i) in Routes(st) && (k, j) in Routes(st)
    ensures i == j
  {
    hide Linked, Covering;
  }

  /** The map with a prefix given an info, or taken out. */
  function Rerouted(routes: set<(seq<bool>, nat)>, k: seq<bool>, info: nat): set<(seq<bool>, nat)> {
    (set e | e in routes && e.0 != k) + if info != 0 then {(k, info)} else {}
  }

  lemma RouteOf(st: Store, e: (seq<bool>, nat))
    ensures e in Routes(st) <==> exists n :: n in st && st[n].info != 0 && e == (st[n].key, st[n].info)
  {
  }

  lemma InfoRoute(st: Store, n: nat, info: nat, e: (seq<bool>, nat))
    requires n in st && forall x :: x in st && st[x].key == st[n].key ==> x == n
    ensures e in Routes(st[n := st[n].(info := info)]) <==> e in Rerouted(Routes(st), st[n].key, info)
  {
    hide Routes;
    var st' := st[n := st[n].(info := info)];
    RouteOf(st, e);
    RouteOf(st', e);
    assert st'[n].info == info;
    if x :| x in st && st[x].info != 0 && e == (st[x].key, st[x].info) && e.0 != st[n].key {
      assert st'[x] == st[x];
    }
  }

  lemma InfoRoutes(st: Store, top: nat, n: nat, info: nat)
    requires Tree(st, top) && n in st
    ensures Routes(st[n := st[n].(info := info)]) == Rerouted(Routes(st), st[n].key, info)
  {
    hide Routes, Linked, Covering;
    forall e
      ensures e in Routes(st[n := st[n].(info := info)]) <==> e in Rerouted(Routes(st), st[n].key, info)
    {
      InfoRoute(st, n, info, e);
    }
  }

  /** Changing links, locks, and nodes without info, leaves the map alone. */
  lemma SameRoutes(st: Store, st': Store)
    requires forall n :: n in st && st[n].info != 0 ==> n in st' && st'[n].key == st[n].key && st'[n].info == st[n].info
    requires forall n :: n in st' && st'[n].info != 0 ==>
      n in st && st[n].key == st'[n].key && st[n].info == st'[n].info
    ensures Routes(st') == Routes(st)
  {
  }

  // ----- descending -----

  /** Nodes whose key covers q are either above `node` and seen, or under it. */
  predicate Pending(st: Store, node: nat, q: seq<bool>, x: nat)
    requires x in st
  {
    node in st && st[node].key <= st[x].key && st[x].key <= q
  }

  /** One step down: what was under `node` is `node` itself or under the child for the next bit of q. */
  lemma StepDown(st: Store, top: nat, node: nat, q: seq<bool>, next: nat, x: nat)
    requires Tree(st, top) && node in st && st[node].key <= q && x in st && Pending(st, node, q, x)
    requires |st[node].key| < |q| ==> next == st[node].Child(q[|st[node].key|])
    ensures x == node || Pending(st, next, q, x)
  {
    hide Linked;
    if st[node].key != st[x].key {
      assert Leads(st, node, x);
    }
  }

  lemma ChildIsLonger(st: Store, top: nat, node: nat, bit: bool)
    requires Tree(st, top) && node in st && st[node].Child(bit) != 0
    ensures st[node].Child(bit) in st && |st[st[node].Child(bit)].key| > |st[node].key|
  {
    NodeOkOf(st, top, node);
    hide Linked;
  }

  lemma NoneLeft(st: Store, node: nat, q: seq<bool>)
    requires node in st ==> !(st[node].key <= q)
    ensures forall x :: x in st ==> !Pending(st, node, q, x)
  {
  }

  class RouteTable {
    const size: nat
    var mem: Memory
    var top: nat
    var unused: nat

    ghost predicate Consistent()
      reads this
    {
      Sized(mem, size) && unused != 0 && forall n :: n in mem ==> n < unused
    }

    ghost predicate Valid()
      reads this
    {
      Consistent() && Good(St(), top)
    }

    ghost function St(): Store
      requires Sized(mem, size)
      reads this
    {
      Abs(mem, size)
    }

    constructor (size: nat)
      ensures Valid() && this.size == size && mem == map[] && top == 0
    {
      this.size := size;
      mem, top, unused := map[], 0, 1;
    }

    /** route_lock_node. */
    method Lock(n: nat)
      requires Valid() && n in mem
      modifies this`mem
      ensures Valid() && mem == old(mem)[n := old(mem)[n].(lock := old(mem)[n].lock + 1)]
      ensures Routes(St()) == old(Routes(St()))
    {
      hide Tree, Bits, Routes;
      mem := mem[n := mem[n].(lock := mem[n].lock + 1)];
      SameTree(old(St()), St(), top);
      SameRoutes(old(St()), St());
    }

    /** Give node n, which the caller holds, an info, or clear it with 0. */
    method SetInfo(n: nat, info: nat)
      requires Valid() && n in mem && mem[n].lock > 0
      modifies this`mem
      ensures Valid() && mem == old(mem)[n := old(mem)[n].(info := info)]
      ensures Routes(St()) == Rerouted(old(Routes(St())), St()[n].key, info)
    {
      hide Tree, Bits, Routes, Rerouted;
      InfoRoutes(St(), top, n, info);
      AbsUpdate(mem, size, n, mem[n].(info := info));
      mem := mem[n := mem[n].(info := info)];
      SameTree(old(St()), St(), top);
    }

    /** Whether node n, if it is there, covers p: the test of the descending loops. */
    method Covers(n: nat, p: Prefix) returns (covers: bool)
      requires Valid() && Prefixes.Valid(p) && |p.bytes| == size && (n != 0 ==> n in mem)
      ensures covers <==> n != 0 && St()[n].key <= Bits(p)
    {
      if n == 0 {
        return false;
      }
      covers := PrefixMatch(mem[n].p, p);
    }

    /** Where the descending loops start. */
    method Start(p: Prefix) returns (node: nat, covers: bool)
      requires Valid() && Prefixes.Valid(p) && |p.bytes| == size
      ensures 0 !in mem && node == top && (node != 0 ==> node in mem)
      ensures covers <==> node != 0 && St()[node].key <= Bits(p)
      ensures forall x :: x in mem && St()[x].key <= Bits(p) ==> Pending(St(), node, Bits(p), x)
    {
      TopPending(St(), top, Bits(p));
      node := top;
      covers := Covers(node, p);
    }

    /** Their step from a node that covers p to its child for the next bit of p. */
    method Descend(node: nat, p: Prefix) returns (next: nat, covers: bool)
      requires Valid() && Prefixes.Valid(p) && |p.bytes| == size && node in mem && St()[node].key <= Bits(p)
      ensures next != 0 ==> next in mem && |St()[next].key| > |St()[node].key|
      ensures covers <==> next != 0 && St()[next].key <= Bits(p)
      ensures |St()[node].key| < p.len ==> next == St()[node].Child(Bits(p)[|St()[node].key|])
      ensures forall x :: x in mem && Pending(St(), node, Bits(p), x) ==> x == node || Pending(St(), next, Bits(p), x)
    {
      hide Tree, Bits;
      var beyond: bv8 := *;
      var bit := CheckBit(p, mem[node].p.len, beyond);
      next := mem[node].Child(bit);
      forall x | x in mem && Pending(St(), node, Bits(p), x)
        ensures x == node || Pending(St(), next, Bits(p), x)
      {
        StepDown(St(), top, node, Bits(p), next, x);
      }
      if next != 0 {
        ChildIsLonger(St(), top, node, bit);
      }
      covers := Covers(next, p);
    }

    /** route_node_match: the longest stored prefix with info that covers p, or NULL if there is none. */
    method Match(p: Prefix) returns (r: nat)
      requires Valid() && Prefixes.Valid(p) && |p.bytes| == size
      modifies this`mem
      ensures Valid() && Routes(St()) == old(Routes(St()))
      ensures r == 0 ==> mem == old(mem) && forall e :: e in Routes(St()) ==> !(e.0 <= Bits(p))
      ensures r != 0 ==>
        && r in old(mem) && mem == old(mem)[r := old(mem)[r].(lock := old(mem)[r].lock + 1)]
        && (St()[r].key, mem[r].info) in Routes(St()) && St()[r].key <= Bits(p)
        && forall e :: e in Routes(St()) && e.0 <= Bits(p) ==> |e.0| <= |St()[r].key|
    {
      hide Tree, Bits, Routes;
      ghost var st, q := St(), Bits(p);
      r := 0;
      var node, covers := Start(p);
      while node != 0 && mem[node].p.len <= p.len && covers
        invariant mem == old(mem)
        invariant 0 !in mem && (node != 0 ==> node in mem) && (covers <==> node != 0 && st[node].key <= q)
        invariant r != 0 ==> r in mem && mem[r].info != 0 && st[r].key <= q
        invariant forall x :: x in st && st[x].key <= q && st[x].info != 0 ==>
          (r != 0 && |st[x].key| <= |st[r].key|) || Pending(st, node, q, x)
        invariant r != 0 && node != 0 ==> |st[r].key| < |st[node].key|
        decreases if node != 0 then 8 * size + 1 - mem[node].p.len else 0
      {
        if mem[node].info != 0 {
          r := node;
        }
        node, covers := Descend(node, p);
      }
      assert node != 0 ==> |st[node].key| == mem[node].p.len;
      NoneLeft(st, node, q);
      LongestRoute(st, r, q);
      if r != 0 {
        Lock(r);
      }
    }

    /** route_node_lookup: the node stored with info under exactly p, or NULL if there is none. */
    method Lookup(p: Prefix) returns (r: nat)
      requires Valid() && Prefixes.Valid(p) && |p.bytes| == size
      modifies this`mem
      ensures Valid() && Routes(St()) == old(Routes(St()))
      ensures r == 0 ==> mem == old(mem) && forall e :: e in Routes(St()) ==> e.0 != Bits(p)
      ensures r != 0 ==>
        && r in old(mem) && mem == old(mem)[r := old(mem)[r].(lock := old(mem)[r].lock + 1)]
        && (Bits(p), mem[r].info) in Routes(St())
    {
      hide Tree, Bits, Routes;
      ghost var st, q := St(), Bits(p);
      var node, covers := Start(p);
      while node != 0 && mem[node].p.len <= p.len && covers
        invariant mem == old(mem)
        invariant 0 !in mem && (node != 0 ==> node in mem) && (covers <==> node != 0 && st[node].key <= q)
        invariant forall x :: x in st && st[x].key == q && st[x].info != 0 ==> Pending(st, node, q, x)
        decreases if node != 0 then 8 * size + 1 - mem[node].p.len else 0
      {
        if mem[node].p.len == p.len && mem[node].info != 0 {
          ExactRoute(st, node, q);
          Lock(node);
          return node;
        }
        node, covers := Descend(node, p);
      }
      assert node != 0 ==> |st[node].key| == mem[node].p.len;
      NoneLeft(st, node, q);
      NoExactRoute(st, q);
      return 0;
    }

    /** A new node for p, held once, as the free link of a for the next bit of p (route_node_set and set_link). */
    method HangNew(a: nat, p: Prefix) returns (id: nat)
      requires Consistent() && Tree(St(), top) && Prefixes.Valid(p) && |p.bytes| == size
      requires a in mem && St()[a].key < Bits(p) && St()[a].Child(Bits(p)[|St()[a].key|]) == 0
      requires forall n :: n in mem && n != a ==> Held(St()[n])
      requires Held(St()[a].WithChild(Bits(p)[|St()[a].key|], 1))
      modifies this`mem, this`unused
      ensures Valid() && Kept(old(mem), mem) && id !in old(mem) && mem.Keys == old(mem).Keys + {id}
      ensures mem[id].p == p && mem[id].lock == 1 && mem[id].info == 0
    {
      hide Tree, Bits, Abs, Good, HangNode;
      HangNodeGood(mem, size, top, a, Bits(p)[mem[a].p.len], unused, p);
      var beyond: bv8 := *;
      var bit := CheckBit(p, mem[a].p.len, beyond);
      id := unused;
      unused := unused + 1;
      mem := HangNode(mem, a, bit, id, p);
    }

    /** The node of route_node_get's last branch, between d and what its descent came from. */
    method InsertCommon(a: nat, d: nat, p: Prefix) returns (g: nat)
      requires Valid() && Prefixes.Valid(p) && |p.bytes| == size && Stops(St(), top, a, d, Bits(p))
      modifies this`mem, this`top, this`unused
      ensures Consistent() && Tree(St(), top) && Kept(old(mem), mem) && g !in old(mem)
      ensures mem.Keys == old(mem).Keys + {g}
      ensures Bits(mem[g].p) <= Bits(p) && mem[g].info == 0 && mem[g].p.len < old(mem)[d].p.len
      ensures forall n :: n in old(mem) ==> Held(St()[n])
      ensures if mem[g].p.len == p.len then mem[g].lock == 1 && Held(St()[g]) else
                && mem[g].lock == 0 && St()[g].Child(Bits(p)[mem[g].p.len]) == 0
                && Held(St()[g].WithChild(Bits(p)[mem[g].p.len], 1))
    {
      hide Bits, Tree, Abs, InsertNode, IsCommon;
      var c := RouteCommon(mem[d].p, p);
      var lock := if c.len == p.len then 1 else 0;
      var bit, beyond: bv8 := false, *;
      if a != 0 {
        bit := CheckBit(p, mem[a].p.len, beyond);
      }
      g := unused;
      InsertNodeGood(mem, size, top, a, bit, d, g, p, c, lock);
      var dbit := CheckBit(mem[d].p, c.len, beyond);
      unused := unused + 1;
      mem := InsertNode(mem, a, bit, d, g, dbit, c, lock);
      if a == 0 {
        top := g;
      }
    }

    /** The descent of route_node_get, which ends at p's own node, or where that node belongs. */
    method Find(p: Prefix) returns (found: nat, a: nat, d: nat)
      requires Valid() && Prefixes.Valid(p) && |p.bytes| == size
      ensures found != 0 ==> found in mem && Bits(mem[found].p) == Bits(p)
      ensures found == 0 ==> if d != 0 then Stops(St(), top, a, d, Bits(p))
                             else if a == 0 then top == 0
                             else a in mem && St()[a].key < Bits(p) && St()[a].Child(Bits(p)[|St()[a].key|]) == 0
    {
      hide Bits, Tree, Pending;
      ghost var st, q := St(), Bits(p);
      found, a := 0, 0;
      var covers;
      d, covers := Start(p);
      while d != 0 && mem[d].p.len <= p.len && covers
        invariant (d != 0 ==> d in mem) && (covers <==> d != 0 && st[d].key <= q)
        invariant if a == 0 then d == top else a in mem && st[a].key < q && st[a].Child(q[|st[a].key|]) == d
        decreases if d != 0 then 8 * size + 1 - mem[d].p.len else 0
      {
        if mem[d].p.len == p.len {
          return d, a, d;
        }
        a := d;
        d, covers := Descend(d, p);
      }
    }

    /** The last branch of route_node_get: a node on the way to d, and if that is not p's own, a leaf below it. */
    method MakeBetween(p: Prefix, a: nat, d: nat) returns (r: nat)
      requires Valid() && Prefixes.Valid(p) && |p.bytes| == size && Stops(St(), top, a, d, Bits(p))
      modifies this`mem, this`top, this`unused
      ensures Valid() && Made(old(mem), mem, r, p)
    {
      hide Bits, Tree, Abs, Stops, Held, Kept, Made;
      r := InsertCommon(a, d, p);
      if mem[r].p.len == p.len {
        assert Bits(mem[r].p) == Bits(p);
        MadeOne(old(mem), mem, r, p);
      } else {
        ghost var g, m := r, mem;
        r := HangNew(r, p);
        MadeTwo(old(mem), m, mem, g, r, p);
      }
    }

    /** A node for p where the descent ended without one: a leaf, a node on the way, or both. */
    method Make(p: Prefix, a: nat, d: nat) returns (r: nat)
      requires Valid() && Prefixes.Valid(p) && |p.bytes| == size
      requires if d != 0 then Stops(St(), top, a, d, Bits(p))
               else if a == 0 then top == 0
               else a in mem && St()[a].key < Bits(p) && St()[a].Child(Bits(p)[|St()[a].key|]) == 0
      modifies this`mem, this`top, this`unused
      ensures Valid() && Made(old(mem), mem, r, p)
    {
      hide Bits, Stops, Tree, Abs, Held, Kept, Made;
      if d != 0 {
        r := MakeBetween(p, a, d);
      } else if a != 0 {
        AHeld(St(), top, a, Bits(p)[|St()[a].key|]);
        r := HangNew(a, p);
        MadeOne(old(mem), mem, r, p);
      } else {
        r := MakeFirst(p);
      }
    }

    /** route_node_delete, which goes on to the parent when that is left a stub. */
    method Delete(n: nat)
      requires Consistent() && Tree(St(), top) && n in mem && mem[n].lock == 0 && mem[n].info == 0
      requires forall x :: x in mem && x != n ==> Held(St()[x])
      modifies this`mem, this`top
      ensures Valid() && Shrunk(old(mem), mem)
      ensures old(mem)[n].left != 0 && old(mem)[n].right != 0 ==> mem == old(mem) && top == old(top)
      decreases |mem|
    {
      hide Bits, Tree, Abs, SpliceNode, Shrunk;
      SelfShrunk(mem);
      assert mem[n].lock == 0;
      assert mem[n].info == 0;
      if mem[n].left != 0 && mem[n].right != 0 {
        return;
      }
      ZeroNotIn(St(), top);
      SpliceNodeGood(mem, size, top, n);
      var child := if mem[n].left != 0 then mem[n].left else mem[n].right;
      var parent := mem[n].parent;
      mem := SpliceNode(mem, n);
      if parent == 0 {
        top := child;
      } else if mem[parent].lock == 0 {
        ghost var m := mem;
        Delete(parent);
        ShrunkTwice(old(mem), m, mem);
      }
    }

    /** route_unlock_node: the last holder's release removes the node unless it serves as glue. */
    method Unlock(n: nat)
      requires Valid() && n in mem && mem[n].lock > 0 && (mem[n].lock == 1 ==> mem[n].info == 0)
      modifies this`mem, this`top
      ensures Valid() && Shrunk(old(mem)[n := old(mem)[n].(lock := old(mem)[n].lock - 1)], mem)
      ensures old(mem)[n].lock > 1 || (old(mem)[n].left != 0 && old(mem)[n].right != 0) ==>
        mem == old(mem)[n := old(mem)[n].(lock := old(mem)[n].lock - 1)] && top == old(top)
      ensures Routes(St()) == old(Routes(St()))
    {
      hide Bits, Tree, Abs, Routes;
      ghost var m := mem;
      mem := mem[n := mem[n].(lock := mem[n].lock - 1)];
      SameTree(Abs(m, size), St(), top);
      SameRoutes(Abs(m, size), St());
      if mem[n].lock == 0 {
        ghost var m1 := mem;
        Delete(n);
        ShrunkRoutes(m1, mem, size);
      }
    }

    /** Where an iteration over the table m stands: `node` alone is held once more. */
    ghost predicate At(m: Memory, node: nat)
      reads this
    {
      && Consistent() && Sized(m, size) && Good(Abs(m, size), top) && Bounded(Abs(m, size), top, 8 * size)
      && (node != 0 ==> node in m) && mem == OneMore(m, node)
    }

    ghost function Order(m: Memory, node: nat): seq<nat>
      requires At(m, node)
      reads this
    {
      Remaining(Abs(m, size), top, 8 * size, node)
    }

    /** Hand the iterator's lock from `node` to `next`, or just give it up. */
    method HandOver(node: nat, next: nat, ghost m: Memory)
      requires At(m, node) && node != 0 && node != next && (next != 0 ==> next in mem)
      modifies this`mem, this`top
      ensures At(m, next) && top == old(top)
    {
      hide Bits, Bounded, Abs, Routes, Shrunk, Good, OneMore;
      LockMoves(m, node, next);
      OneMoreGood(m, size, top, node);
      OneMoreGood(OneMore(m, node), size, top, next);
      OnceHeldIsGlue(m, size, top, node);
      if next != 0 {
        mem := mem[next := mem[next].(lock := mem[next].lock + 1)];
      }
      Unlock(node);
    }

    /** route_top. */
    method Top(ghost m: Memory) returns (r: nat)
      requires At(m, 0)
      modifies this`mem
      ensures At(m, r) && Order(m, r) == Preorder(Abs(m, size), top, 8 * size, top)
      ensures r == top
      ensures r != 0 ==> r in old(mem) && mem == old(mem)[r := old(mem)[r].(lock := old(mem)[r].lock + 1)]
    {
      hide Bits, Tree, Bounded, Abs, Preorder, Remaining;
      TopRemaining(Abs(m, size), top, 8 * size);
      assert 0 !in m by { ZeroNotIn(Abs(m, size), top); }
      if top == 0 {
        return 0;
      }
      mem := mem[top := mem[top].(lock := mem[top].lock + 1)];
      return top;
    }

    /** Where route_next goes: to the first child, or up to the first right sibling on the way. */
    method Successor(node: nat, ghost m: Memory) returns (next: nat)
      requires At(m, node) && node != 0
      ensures (next != 0 ==> next in m)
      ensures Order(m, node) == [node] + Remaining(Abs(m, size), top, 8 * size, next)
    {
      hide Bits, Tree, Bounded, Preorder, After, Remaining, Good;
      ghost var st, bound := Abs(m, size), 8 * size;
      if mem[node].left != 0 || mem[node].right != 0 {
        NextIsChild(st, top, bound, node);
        next := if mem[node].left != 0 then mem[node].left else mem[node].right;
        return;
      }
      LeafRemaining(st, top, bound, node);
      var at := node;
      while mem[at].parent != 0
        invariant at in m && After(st, top, bound, node) == After(st, top, bound, at)
        decreases |st[at].key|
      {
        var parent := mem[at].parent;
        NextIsAbove(st, top, bound, at);
        if mem[parent].left == at && mem[parent].right != 0 {
          return mem[parent].right;
        }
        at := parent;
      }
      NextIsAbove(st, top, bound, at);
      NoneRemaining(st, top, bound);
      return 0;
    }

    /** route_next: move the lock to the next node in preorder, or give it up at the end. */
    method Next(node: nat, ghost m: Memory) returns (next: nat)
      requires At(m, node) && node != 0
      modifies this`mem, this`top
      ensures At(m, next) && top == old(top) && old(Order(m, node)) == [node] + Order(m, next)
      ensures node != next && node in mem && node in old(mem) && mem[node].lock == old(mem)[node].lock - 1
      ensures next != 0 ==> next in mem && next in old(mem) && mem[next].lock == old(mem)[next].lock + 1
      ensures forall n :: n in mem && n != node && n != next ==> n in old(mem) && mem[n] == old(mem)[n]
    {
      hide Remaining, Tree, Bounded, Good, Bits, Abs;
      next := Successor(node, m);
      MovesOn(Abs(m, size), top, 8 * size, node, next);
      HandOver(node, next, m);
    }

    /** The loop of route_dump_node: every node once, in preorder, and the table as it was. */
    method Dump() returns (visited: seq<nat>)
      requires Valid()
      modifies this`mem, this`top
      ensures mem == old(mem) && top == old(top)
      ensures Bounded(St(), top, 8 * size) && visited == Preorder(St(), top, 8 * size, top)
    {
      hide Bits, Tree, Good, Abs, Preorder, After, Remaining, Bounded;
      ghost var m := mem;
      StoreBounded(m, size, top);
      ZeroNotIn(St(), top);
      TopRemaining(Abs(m, size), top, 8 * size);
      ghost var order := Preorder(Abs(m, size), top, 8 * size, top);
      var node := Top(m);
      visited := [];
      while node != 0
        invariant At(m, node) && top == old(top)
        invariant visited + Order(m, node) == order
        decreases |Order(m, node)|
      {
        visited := visited + [node];
        node := Next(node, m);
      }
      NoneRemaining(Abs(m, size), top, 8 * size);
      assert mem == m;
    }

    /** A node for p in an empty table. */
    method MakeFirst(p: Prefix) returns (r: nat)
      requires Valid() && Prefixes.Valid(p) && |p.bytes| == size && top == 0
      modifies this`mem, this`top, this`unused
      ensures Valid() && Made(old(mem), mem, r, p)
    {
      hide Bits, Good, Abs;
      FirstNode(mem, size, unused, p);
      r, top, unused := unused, unused, unused + 1;
      mem := mem[r := RouteNode(p, 0, 0, 0, 1, 0)];
      assert mem.Keys - old(mem).Keys == {r};
    }

    /** route_node_get: the node of exactly p, made if there is none. Every other entry stays as it is. */
    method Get(p: Prefix) returns (r: nat)
      requires Valid() && Prefixes.Valid(p) && |p.bytes| == size
      modifies this`mem, this`top, this`unused
      ensures Valid() && Routes(St()) == old(Routes(St()))
      ensures r in mem && Bits(mem[r].p) == Bits(p)
      ensures if r in old(mem) then mem == old(mem)[r := old(mem)[r].(lock := old(mem)[r].lock + 1)]
              else
                && Kept(old(mem), mem) && mem[r].lock == 1 && mem[r].info == 0
                && |mem.Keys - old(mem).Keys| <= 2
                && forall n :: n in mem && n !in old(mem) && n != r ==> mem[n].lock == 0
    {
      hide Bits, Good, Abs, Routes, Stops;
      var a, d;
      r, a, d := Find(p);
      if r != 0 {
        Lock(r);
      } else {
        ghost var m := mem;
        r := Make(p, a, d);
        KeptRoutes(m, mem, size);
      }
    }
  }

  /** The writes of route_node_set and set_link. */
  function HangNode(mem: Memory, a: nat, bit: bool, id: nat, p: Prefix): Memory
    requires a in mem
  {
    mem[a := mem[a].WithChild(bit, id)][id := RouteNode(p, a, 0, 0, 1, 0)]
  }

  lemma HangNodeAbs(mem: Memory, size: nat, a: nat, bit: bool, id: nat, p: Prefix)
    requires Sized(mem, size) && Valid(p) && |p.bytes| == size && a in mem && a != id
    ensures Sized(HangNode(mem, a, bit, id, p), size)
    ensures Abs(HangNode(mem, a, bit, id, p), size) == Hang(Abs(mem, size), a, bit, id, Node(Bits(p), 0, 0, 0, 1, 0))
  {
  }

  lemma HangNodeGood(mem: Memory, size: nat, top: nat, a: nat, bit: bool, id: nat, p: Prefix)
    requires Sized(mem, size) && Tree(Abs(mem, size), top) && Valid(p) && |p.bytes| == size && id !in mem && id != 0
    requires a in mem && Bits(mem[a].p) < Bits(p) && Bits(p)[mem[a].p.len] == bit && mem[a].Child(bit) == 0
    requires forall n :: n in mem && n != a ==> Held(Abs(mem, size)[n])
    requires Held(Abs(mem, size)[a].WithChild(bit, 1))
    ensures var mem' := HangNode(mem, a, bit, id, p);
            && Sized(mem', size) && Good(Abs(mem', size), top) && Kept(mem, mem') && mem'.Keys == mem.Keys + {id}
            && mem'[id] == RouteNode(p, a, 0, 0, 1, 0)
  {
    hide Bits, Tree, Abs, Hang, Good, HangNode, Kept;
    HangNodeAbs(mem, size, a, bit, id, p);
    HangNodeKept(mem, a, bit, id, p);
    HangGood(Abs(mem, size), top, a, bit, id, Node(Bits(p), 0, 0, 0, 1, 0));
  }

  lemma HangNodeKept(mem: Memory, a: nat, bit: bool, id: nat, p: Prefix)
    requires a in mem && id !in mem
    ensures var mem' := HangNode(mem, a, bit, id, p);
            Kept(mem, mem') && mem'.Keys == mem.Keys + {id} && mem'[id] == RouteNode(p, a, 0, 0, 1, 0)
  {
  }

  /** Hanging a held leaf onto a tree in which all nodes but a are held, and a is but for that leaf. */
  lemma HangGood(st: Store, top: nat, a: nat, bit: bool, id: nat, node: Node)
    requires Tree(st, top) && CanHang(st, a, bit, id, node) && Held(node)
    requires (forall n :: n in st && n != a ==> Held(st[n])) && Held(st[a].WithChild(bit, 1))
    ensures Good(Hang(st, a, bit, id, node), top)
  {
    hide Tree;
    HangKeeps(st, top, a, bit, id, node);
  }

  /** The writes that put a new node g, with prefix c, between d and its parent a. */
  function InsertNode(mem: Memory, a: nat, bit: bool, d: nat, g: nat, dbit: bool, c: Prefix, lock: nat): Memory
    requires d in mem
  {
    var m1 := if a in mem then mem[a := mem[a].WithChild(bit, g)] else mem;
    m1[d := m1[d].(parent := g)][g := RouteNode(c, a, 0, 0, lock, 0).WithChild(dbit, d)]
  }

  lemma InsertNodeAbs(mem: Memory, size: nat, a: nat, bit: bool, d: nat, g: nat, c: Prefix, lock: nat)
    requires Sized(mem, size) && Valid(c) && |c.bytes| == size && d in mem && g !in mem && a != d && 0 !in mem
    requires a != 0 ==> a in mem
    requires c.len < mem[d].p.len
    ensures var dbit := Bits(mem[d].p)[c.len];
            var mem' := InsertNode(mem, a, bit, d, g, dbit, c, lock);
            && Sized(mem', size)
            && Abs(mem', size) == Insert(Abs(mem, size), a, bit, d, g, Node(Bits(c), 0, 0, 0, lock, 0))
  {
    hide Bits, Abs;
    var dbit := Bits(mem[d].p)[c.len];
    var m1 := if a in mem then mem[a := mem[a].WithChild(bit, g)] else mem;
    if a in mem {
      AbsUpdate(mem, size, a, m1[a]);
    }
    assert m1[d] == mem[d];
    var m2 := m1[d := m1[d].(parent := g)];
    AbsUpdate(m1, size, d, m2[d]);
    AbsUpdate(m2, size, g, RouteNode(c, a, 0, 0, lock, 0).WithChild(dbit, d));
  }

  lemma InsertNodeKept(mem: Memory, a: nat, bit: bool, d: nat, g: nat, dbit: bool, c: Prefix, lock: nat)
    requires d in mem && g !in mem && a != d
    ensures var mem' := InsertNode(mem, a, bit, d, g, dbit, c, lock);
            && Kept(mem, mem') && mem'.Keys == mem.Keys + {g}
            && mem'[g] == RouteNode(c, a, 0, 0, lock, 0).WithChild(dbit, d)
  {
  }

  lemma InsertHeld(st: Store, top: nat, a: nat, bit: bool, d: nat, g: nat, node: Node)
    requires Good(st, top) && CanInsert(st, a, bit, d, g, node)
    ensures var st' := Insert(st, a, bit, d, g, node);
            && Tree(st', if a == 0 then g else top)
            && (forall n :: n in st ==> n in st' && Held(st'[n]))
            && st'[g] == node.(parent := a).WithChild(st[d].key[|node.key|], d)
  {
    hide Tree, Insert;
    InsertKeeps(st, top, a, bit, d, g, node);
    forall n | n in st
      ensures n in Insert(st, a, bit, d, g, node) && Held(Insert(st, a, bit, d, g, node)[n])
    {
      InsertFields(st, a, bit, d, g, node, n);
      var was, now := st[n], Insert(st, a, bit, d, g, node)[n];
      assert Held(was) && now.left == now.Child(false) && now.right == now.Child(true);
      assert was.left == was.Child(false) && was.right == was.Child(true);
    }
    InsertFields(st, a, bit, d, g, node, d);
  }

  /** The node where the descent of route_node_get stops, below `a` or at the top, and the prefix common to it and p. */
  predicate Stops(st: Store, top: nat, a: nat, d: nat, q: seq<bool>) {
    && d in st && !(st[d].key <= q)
    && (if a == 0 then d == top else a in st && st[a].key < q && st[a].Child(q[|st[a].key|]) == d)
  }

  lemma StopFacts(st: Store, top: nat, a: nat, d: nat, q: seq<bool>)
    requires Tree(st, top) && Stops(st, top, a, d, q)
    ensures 0 !in st && a != d && st[d].parent == a && (a != 0 ==> Above(st, a, q[|st[a].key|], d))
  {
    ZeroNotIn(st, top);
    if a == 0 {
      NodeOkOf(st, top, d);
    } else {
      NodeOkOf(st, top, a);
    }
    hide Tree;
  }

  lemma CommonFacts(n: Prefix, p: Prefix, c: Prefix, below: bool, k: seq<bool>)
    requires Valid(n) && Valid(p) && |n.bytes| == |p.bytes| && IsCommon(n, p, c) && !(Bits(n) <= Bits(p))
    requires below ==> (k < Bits(n) && k < Bits(p) && Bits(n)[|k|] == Bits(p)[|k|])
    ensures Bits(c) <= Bits(p) && Bits(c) < Bits(n) && (below ==> k < Bits(c))
    ensures c.len < p.len ==> Bits(n)[c.len] != Bits(p)[c.len]
  {
  }

  lemma InsertNodeGood(mem: Memory, size: nat, top: nat, a: nat, bit: bool, d: nat, g: nat, p: Prefix, c: Prefix,
                       lock: nat)
    requires Sized(mem, size) && Good(Abs(mem, size), top) && g !in mem && g != 0
    requires Valid(p) && |p.bytes| == size && Stops(Abs(mem, size), top, a, d, Bits(p)) && IsCommon(mem[d].p, p, c)
    requires a != 0 ==> bit == Bits(p)[|Bits(mem[a].p)|]
    ensures Bits(c) <= Bits(p) && Bits(c) < Bits(mem[d].p)
    ensures var dbit := Bits(mem[d].p)[c.len];
            var mem' := InsertNode(mem, a, bit, d, g, dbit, c, lock);
            && Sized(mem', size) && Tree(Abs(mem', size), if a == 0 then g else top)
            && Kept(mem, mem') && mem'.Keys == mem.Keys + {g}
            && mem'[g] == RouteNode(c, a, 0, 0, lock, 0).WithChild(dbit, d)
            && (forall n :: n in mem ==> Held(Abs(mem', size)[n]))
            && (c.len < p.len ==> Bits(p)[c.len] != dbit)
            && d != 0
  {
    hide Bits, Tree, Abs, Insert, InsertNode, Held;
    var st := Abs(mem, size);
    StopFacts(st, top, a, d, Bits(p));
    CommonFacts(mem[d].p, p, c, a != 0, if a == 0 then [] else st[a].key);
    InsertNodeAbs(mem, size, a, bit, d, g, c, lock);
    InsertNodeKept(mem, a, bit, d, g, Bits(mem[d].p)[c.len], c, lock);
    InsertHeld(st, top, a, bit, d, g, Node(Bits(c), 0, 0, 0, lock, 0));
  }

  /** The writes of route_node_delete for a node with at most one child. */
  function SpliceNode(mem: Memory, n: nat): Memory
    requires n in mem
  {
    var a, c := mem[n].parent, if mem[n].left != 0 then mem[n].left else mem[n].right;
    var m1 := if c in mem then mem[c := mem[c].(parent := a)] else mem;
    var m2 := if a in m1 then (if m1[a].left == n then m1[a := m1[a].(left := c)] else m1[a := m1[a].(right := c)])
      else m1;
    m2 - {n}
  }

  lemma SpliceNodeAbs(mem: Memory, size: nat, n: nat)
    requires Sized(mem, size) && n in mem
    ensures var a := mem[n].parent;
            && Sized(SpliceNode(mem, n), size)
            && Abs(SpliceNode(mem, n), size) == Splice(Abs(mem, size), n, a in mem && mem[a].left != n)
  {
    hide Bits, Abs;
    var a, c := mem[n].parent, if mem[n].left != 0 then mem[n].left else mem[n].right;
    var m1 := if c in mem then mem[c := mem[c].(parent := a)] else mem;
    if c in mem {
      AbsUpdate(mem, size, c, m1[c]);
    }
    var m2 := if a in m1 then (if m1[a].left == n then m1[a := m1[a].(left := c)] else m1[a := m1[a].(right := c)])
      else m1;
    if a in m1 {
      AbsUpdate(m1, size, a, m2[a]);
    }
    AbsRemove(m2, size, n);
  }

  lemma AbsRemove(mem: Memory, size: nat, n: nat)
    requires Sized(mem, size)
    ensures Sized(mem - {n}, size) && Abs(mem - {n}, size) == Abs(mem, size) - {n}
  {
  }

  lemma CanSpliceNode(st: Store, top: nat, n: nat)
    requires Tree(st, top) && n in st && (st[n].left == 0 || st[n].right == 0)
    ensures var a := st[n].parent;
            CanSplice(st, top, n, a in st && st[a].left != n)
  {
    ZeroNotIn(st, top);
    NodeOkOf(st, top, n);
    if st[n].parent != 0 {
      NodeOkOf(st, top, st[n].parent);
    }
    hide Tree;
  }

  /** After splicing out n, only its parent may be left unheld. */
  lemma SpliceHeld(st: Store, top: nat, n: nat, bit: bool, x: nat)
    requires CanSplice(st, top, n, bit) && x in st && x != n && Held(st[x])
    ensures x in Splice(st, n, bit)
    ensures x != st[n].parent || st[x].lock > 0 ==> Held(Splice(st, n, bit)[x])
  {
  }

  /** Nodes of m' are nodes of m, with the same prefix, lock count and info. */
  predicate Shrunk(m: Memory, m': Memory) {
    && (forall n :: n in m' ==> n in m && m[n] == m'[n].(parent := m[n].parent, left := m[n].left, right := m[n].right))
    && (forall n :: n in m && n !in m' ==> m[n].lock == 0 && m[n].info == 0)
  }

  lemma SpliceNodeGood(mem: Memory, size: nat, top: nat, n: nat)
    requires Sized(mem, size) && Tree(Abs(mem, size), top) && n in mem && (mem[n].left == 0 || mem[n].right == 0)
    requires mem[n].lock == 0 && mem[n].info == 0 && forall x :: x in mem && x != n ==> Held(Abs(mem, size)[x])
    ensures var a, mem' := mem[n].parent, SpliceNode(mem, n);
            && Sized(mem', size) && Shrunk(mem, mem') && mem'.Keys == mem.Keys - {n}
            && Tree(Abs(mem', size), TopAfterSplice(Abs(mem, size), top, n))
            && (forall x :: x in mem' && (x != a || mem'[x].lock > 0) ==> Held(Abs(mem', size)[x]))
            && (a != 0 ==> a in mem' && (mem'[a].lock == 0 ==> mem'[a].info == 0))
  {
    hide Bits, Tree, Splice, SpliceNode, NodeOk, Held;
    var st, a := Abs(mem, size), mem[n].parent;
    var bit := a in mem && mem[a].left != n;
    SpliceNodeAbs(mem, size, n);
    CanSpliceNode(st, top, n);
    SpliceKeeps(st, top, n, bit);
    SpliceKeys(st, n, bit);
    SpliceEnds(st, top, n, bit);
    forall x | x in mem && x != n
      ensures x in Splice(st, n, bit) && (x != a || st[x].lock > 0 ==> Held(Splice(st, n, bit)[x]))
    {
      SpliceHeld(st, top, n, bit, x);
    }
    SpliceNodeShrinks(mem, n);
    if a != 0 {
      assert Held(st[a]);
      HeldInfo(st[a]);
    }
  }

  lemma HeldInfo(node: Node)
    requires Held(node)
    ensures node.lock == 0 ==> node.info == 0
  {
  }

  lemma SpliceNodeShrinks(mem: Memory, n: nat)
    requires n in mem && mem[n].lock == 0 && mem[n].info == 0
    ensures Shrunk(mem, SpliceNode(mem, n)) && SpliceNode(mem, n).Keys == mem.Keys - {n}
  {
  }

  lemma SelfShrunk(m: Memory)
    ensures Shrunk(m, m)
  {
  }

  lemma ShrunkTwice(a: Memory, b: Memory, c: Memory)
    requires Shrunk(a, b) && Shrunk(b, c)
    ensures Shrunk(a, c)
  {
  }

  lemma ShrunkRoutes(m: Memory, m': Memory, size: nat)
    requires Sized(m, size) && Sized(m', size) && Shrunk(m, m')
    ensures Routes(Abs(m', size)) == Routes(Abs(m, size))
  {
  }

  lemma StoreBounded(mem: Memory, size: nat, top: nat)
    requires Sized(mem, size) && Good(Abs(mem, size), top)
    ensures Bounded(Abs(mem, size), top, 8 * size) && Tree(Abs(mem, size), top)
  {
  }

  /** Taking more locks harms nothing. */
  lemma MoreLocks(st: Store, st': Store, top: nat)
    requires Good(st, top) && st'.Keys == st.Keys
    requires forall n :: n in st ==> st'[n] == st[n].(lock := st'[n].lock) && st'[n].lock >= st[n].lock
    ensures Good(st', top)
  {
    hide Tree;
    SameTree(st, st', top);
    assert forall n :: n in st ==> Held(st[n]);
  }

  /** A table with one more lock on a node, if any. */
  function OneMore(m: Memory, n: nat): (m': Memory)
    requires n != 0 ==> n in m
    ensures m'.Keys == m.Keys
    ensures forall x :: x in m ==> m'[x] == m[x].(lock := m'[x].lock) && m'[x].lock >= m[x].lock
  {
    if n == 0 then m else m[n := m[n].(lock := m[n].lock + 1)]
  }

  /** Locking the next node and unlocking this one moves the extra lock over. */
  lemma LockMoves(m: Memory, n: nat, next: nat)
    requires n != 0 && n in m && n != next && (next != 0 ==> next in m)
    ensures var m1, m2 := OneMore(m, n), OneMore(OneMore(m, n), next);
      && m2 == (if next != 0 then m1[next := m1[next].(lock := m1[next].lock + 1)] else m1)
      && m2[n].lock == m[n].lock + 1
      && m2[n := m2[n].(lock := m2[n].lock - 1)] == OneMore(m, next)
  {
  }

  lemma OneMoreGood(m: Memory, size: nat, top: nat, n: nat)
    requires Sized(m, size) && Good(Abs(m, size), top) && (n != 0 ==> n in m)
    ensures Sized(OneMore(m, n), size) && Good(Abs(OneMore(m, n), size), top)
  {
    hide Tree, Bits, OneMore;
    MoreLocks(Abs(m, size), Abs(OneMore(m, n), size), top);
  }

  lemma OnceHeldIsGlue(m: Memory, size: nat, top: nat, n: nat)
    requires Sized(m, size) && Good(Abs(m, size), top) && n in m
    ensures m[n].lock > 0 || (m[n].left != 0 && m[n].right != 0 && m[n].info == 0)
  {
    assert Held(Abs(m, size)[n]);
  }

  lemma AHeld(st: Store, top: nat, a: nat, bit: bool)
    requires Good(st, top) && a in st
    ensures Held(st[a].WithChild(bit, 1)) && forall n :: n in st ==> Held(st[n])
  {
    hide Tree;
  }

  /** From m to m' a node r for p, held once, was made, with at most one glue node beside it. */
  ghost predicate Made(m: Memory, m': Memory, r: nat, p: Prefix) {
    && Kept(m, m') && r in m' && r !in m && |m'.Keys - m.Keys| <= 2
    && Valid(p) && Valid(m'[r].p) && Bits(m'[r].p) == Bits(p) && m'[r].lock == 1
    && forall n :: n in m' && n !in m ==> m'[n].info == 0 && (n != r ==> m'[n].lock == 0)
  }

  lemma MadeOne(m: Memory, m': Memory, r: nat, p: Prefix)
    requires Kept(m, m') && r !in m && m'.Keys == m.Keys + {r} && m'[r].lock == 1 && m'[r].info == 0
    requires Valid(p) && Valid(m'[r].p) && Bits(m'[r].p) == Bits(p)
    ensures Made(m, m', r, p)
  {
  }

  lemma MadeTwo(m: Memory, m1: Memory, m': Memory, g: nat, r: nat, p: Prefix)
    requires Kept(m, m1) && Kept(m1, m') && g !in m && m1.Keys == m.Keys + {g} && r !in m1 && m'.Keys == m1.Keys + {r}
    requires m1[g].lock == 0 && m1[g].info == 0 && m'[r].lock == 1 && m'[r].info == 0
    requires Valid(p) && Valid(m'[r].p) && Bits(m'[r].p) == Bits(p)
    ensures Made(m, m', r, p)
  {
    hide Bits, Kept;
    KeptTwice(m, m1, m', g);
    TwoNew(m.Keys, m'.Keys, g, r);
  }

  lemma TwoNew(a: set<nat>, b: set<nat>, g: nat, r: nat)
    requires b == a + {g} + {r}
    ensures |b - a| <= 2
  {
  }

  lemma KeptTwice(a: Memory, b: Memory, c: Memory, g: nat)
    requires Kept(a, b) && Kept(b, c) && g in b
    ensures Kept(a, c) && g in c && c[g].lock == b[g].lock && c[g].info == b[g].info
  {
  }

  lemma FirstNode(mem: Memory, size: nat, r: nat, p: Prefix)
    requires Sized(mem, size) && Good(Abs(mem, size), 0) && Valid(p) && |p.bytes| == size && r != 0
    ensures var mem' := mem[r := RouteNode(p, 0, 0, 0, 1, 0)];
            mem == map[] && Sized(mem', size) && Good(Abs(mem', size), r)
  {
  }

  /** New nodes without info change nothing in the map. */
  lemma KeptRoutes(m: Memory, m': Memory, size: nat)
    requires Sized(m, size) && Sized(m', size) && Kept(m, m') && forall n :: n in m' && n !in m ==> m'[n].info == 0
    ensures Routes(Abs(m', size)) == Routes(Abs(m, size))
  {
  }

  lemma ZeroNotIn(st: Store, top: nat)
    requires Tree(st, top)
    ensures 0 !in st
  {
  }

  /** No node of m is gone, and none has another prefix, lock count or info. */
  predicate Kept(m: Memory, m': Memory) {
    forall n :: n in m ==> n in m' && m'[n] == m[n].(parent := m'[n].parent, left := m'[n].left, right := m'[n].right)
  }

  lemma ExactRoute(st: Store, n: nat, q: seq<bool>)
    requires n in st && st[n].info != 0 && st[n].key <= q && |st[n].key| == |q|
    ensures st[n].key == q && (q, st[n].info) in Routes(st)
  {
  }

  lemma NoExactRoute(st: Store, q: seq<bool>)
    requires forall x :: x in st && st[x].key == q ==> st[x].info == 0
    ensures forall e :: e in Routes(st) ==> e.0 != q
  {
  }

  lemma LongestRoute(st: Store, r: nat, q: seq<bool>)
    requires r != 0 ==> r in st && st[r].info != 0 && st[r].key <= q
    requires forall x :: x in st && st[x].key <= q && st[x].info != 0 ==> r != 0 && |st[x].key| <= |st[r].key|
    ensures r == 0 ==> forall e :: e in Routes(st) ==> !(e.0 <= q)
    ensures r != 0 ==>
      (st[r].key, st[r].info) in Routes(st) && forall e :: e in Routes(st) && e.0 <= q ==> |e.0| <= |st[r].key|
  {
  }

  lemma TopPending(st: Store, top: nat, q: seq<bool>)
    requires Tree(st, top)
    ensures 0 !in st && (top != 0 ==> top in st)
    ensures forall x :: x in st && st[x].key <= q ==> Pending(st, top, q, x)
  {
  }

  /** The tree does not look at locks and info. */
  lemma SameTree(st: Store, st': Store, top: nat)
    requires Tree(st, top) && st'.Keys == st.Keys
    requires forall n :: n in st ==> st'[n] == st[n].(lock := st'[n].lock, info := st'[n].info)
    ensures Tree(st', top)
  {
    forall n | n in st'
      ensures NodeOk(st', top, n)
    {
      NodeOkOf(st, top, n);
    }
    forall x, y | x in st' && y in st'
      ensures Leads(st', x, y)
    {
      assert Leads(st, x, y);
    }
  }
}

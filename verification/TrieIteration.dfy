/**
  Preorder of a route table's tree, and how route_next (lib/table.c) moves along it.
 */
module TrieIteration {
  import opened Sequences
  import opened TrieStores

  ghost predicate Bounded(st: Store, top: nat, bound: nat) {
    Tree(st, top) && forall n :: n in st ==> |st[n].key| <= bound
  }

  lemma ChildBelow(st: Store, top: nat, n: nat, bit: bool)
    requires Tree(st, top) && n in st && st[n].Child(bit) != 0
    ensures var c := st[n].Child(bit);
            c in st && c != top && st[c].parent == n && st[n].key < st[c].key && st[c].key[|st[n].key|] == bit
                && 0 !in st
  {
    NodeOkOf(st, top, n);
    assert LinkOk(st, n, bit);
    hide Covering, Unique;
  }

  lemma ParentAbove(st: Store, top: nat, n: nat)
    requires Tree(st, top) && n in st && n != top
    ensures var a := st[n].parent;
            a in st && a != 0 && |st[a].key| < |st[n].key| && (st[a].left == n || st[a].right == n)
  {
    NodeOkOf(st, top, n);
    NodeOkOf(st, top, st[n].parent);
    hide Tree;
  }

  /** Node n and everything below it, left before right. */
  ghost function Preorder(st: Store, top: nat, bound: nat, n: nat): seq<nat>
    requires Bounded(st, top, bound) && (n != 0 ==> n in st)
    decreases if n == 0 then 0 else bound + 1 - |st[n].key|
  {
    if n == 0 then [] else
      var l, r := st[n].left, st[n].right;
      assert l != 0 ==> l in st && |st[n].key| < |st[l].key| by { if l != 0 { ChildBelow(st, top, n, false); } }
      assert r != 0 ==> r in st && |st[n].key| < |st[r].key| by { if r != 0 { ChildBelow(st, top, n, true); } }
      [n] + Preorder(st, top, bound, l) + Preorder(st, top, bound, r)
  }

  /** What follows the subtree of n in the preorder of the whole tree. */
  ghost function After(st: Store, top: nat, bound: nat, n: nat): seq<nat>
    requires Bounded(st, top, bound) && n in st
    decreases |st[n].key|
  {
    if n == top then [] else
      ParentAbove(st, top, n);
      var a := st[n].parent;
      var r := st[a].right;
      assert r != 0 ==> r in st by { if r != 0 { ChildBelow(st, top, a, true); } }
      (if st[a].left == n then Preorder(st, top, bound, r) else []) + After(st, top, bound, a)
  }

  ghost function Remaining(st: Store, top: nat, bound: nat, n: nat): seq<nat>
    requires Bounded(st, top, bound) && (n != 0 ==> n in st)
  {
    if n == 0 then [] else Preorder(st, top, bound, n) + After(st, top, bound, n)
  }

  lemma AfterChild(st: Store, top: nat, bound: nat, n: nat, bit: bool)
    requires Bounded(st, top, bound) && n in st && st[n].Child(bit) != 0
    ensures var c, r := st[n].Child(bit), st[n].right;
            && c in st && (r != 0 ==> r in st)
            && After(st, top, bound, c) == (if bit then [] else Preorder(st, top, bound, r)) + After(st, top, bound, n)
  {
    ChildBelow(st, top, n, bit);
    if st[n].right != 0 {
      ChildBelow(st, top, n, true);
    }
    if st[n].left != 0 {
      ChildBelow(st, top, n, false);
    }
    hide Bounded, Preorder;
  }

  lemma PreorderOf(st: Store, top: nat, bound: nat, n: nat)
    requires Bounded(st, top, bound) && n in st && n != 0
    ensures var l, r := st[n].left, st[n].right;
            && (l != 0 ==> l in st) && (r != 0 ==> r in st)
            && Preorder(st, top, bound, n) == [n] + Preorder(st, top, bound, l) + Preorder(st, top, bound, r)
  {
    if st[n].left != 0 {
      ChildBelow(st, top, n, false);
    }
    if st[n].right != 0 {
      ChildBelow(st, top, n, true);
    }
    hide Bounded;
  }

  /** From a node with children, its first child comes next. */
  lemma NextIsChild(st: Store, top: nat, bound: nat, n: nat)
    requires Bounded(st, top, bound) && n in st && n != 0 && (st[n].left != 0 || st[n].right != 0)
    ensures var c := if st[n].left != 0 then st[n].left else st[n].right;
            c in st && Remaining(st, top, bound, n) == [n] + Remaining(st, top, bound, c)
  {
    hide Bounded, Preorder, After;
    PreorderOf(st, top, bound, n);
    AfterChild(st, top, bound, n, st[n].left == 0);
    assert Preorder(st, top, bound, 0) == [] by { EmptyPreorder(st, top, bound); }
  }

  lemma EmptyPreorder(st: Store, top: nat, bound: nat)
    requires Bounded(st, top, bound)
    ensures Preorder(st, top, bound, 0) == []
  {
  }

  lemma TopHasNoParent(st: Store, top: nat, n: nat)
    requires Tree(st, top) && n in st
    ensures n == top <==> st[n].parent == 0
  {
    NodeOkOf(st, top, n);
    hide Covering, Unique;
  }

  /** Climbing from n: either the parent's right child comes next, or what follows the parent. */
  lemma NextIsAbove(st: Store, top: nat, bound: nat, n: nat)
    requires Bounded(st, top, bound) && n in st
    ensures n == top <==> st[n].parent == 0
    ensures n == top ==> After(st, top, bound, n) == []
    ensures n != top ==> var a := st[n].parent;
              a in st && |st[a].key| < |st[n].key|
              && if st[a].left == n && st[a].right != 0 then
                   st[a].right in st && After(st, top, bound, n) == Remaining(st, top, bound, st[a].right)
                 else After(st, top, bound, n) == After(st, top, bound, a)
  {
    hide Tree, Preorder, NodeOk;
    TopHasNoParent(st, top, n);
    EmptyPreorder(st, top, bound);
    if n != top {
      ParentAbove(st, top, n);
      var a := st[n].parent;
      if st[a].right != 0 {
        ChildBelow(st, top, a, true);
      }
      if st[a].left != 0 {
        ChildBelow(st, top, a, false);
      }
      if st[a].left == n && st[a].right != 0 {
        assert After(st, top, bound, st[a].right) == [] + After(st, top, bound, a);
      } else {
        assert After(st, top, bound, n) == [] + After(st, top, bound, a);
      }
    }
  }

  /** The preorder from n holds exactly the nodes whose keys extend n's. */
  lemma {:induction false} PreorderIsSubtree(st: Store, top: nat, bound: nat, n: nat, x: nat)
    requires Bounded(st, top, bound) && n in st && n != 0
    ensures x in Preorder(st, top, bound, n) <==> x in st && st[n].key <= st[x].key
    decreases bound - |st[n].key|
  {
    var l, r := st[n].left, st[n].right;
    if x in st && x != n && st[n].key <= st[x].key {
      SubtreeOf(st, top, n, x);
    }
    if l != 0 {
      ChildBelow(st, top, n, false);
      PreorderIsSubtree(st, top, bound, l, x);
    }
    if r != 0 {
      ChildBelow(st, top, n, true);
      PreorderIsSubtree(st, top, bound, r, x);
    }
    PreorderOf(st, top, bound, n);
    EmptyPreorder(st, top, bound);
    hide Bounded, Preorder;
  }

  lemma NoRepeatConcat(n: nat, ls: seq<nat>, rs: seq<nat>)
    requires NoRepeat(ls) && NoRepeat(rs) && n !in ls && n !in rs && forall x :: x in ls ==> x !in rs
    ensures NoRepeat([n] + ls + rs)
  {
    var q := [n] + ls + rs;
    forall i, j | 0 <= i < j < |q|
      ensures q[i] != q[j]
    {
      assert q[j] in ls || q[j] in rs;
      assert 1 <= i <= |ls| ==> q[i] == ls[i - 1] && q[i] in ls;
      assert |ls| < j ==> q[j] == rs[j - 1 - |ls|] && q[j] in rs;
    }
  }

  /** No node occurs twice. */
  lemma {:induction false} PreorderNoRepeat(st: Store, top: nat, bound: nat, n: nat)
    requires Bounded(st, top, bound) && (n != 0 ==> n in st)
    ensures NoRepeat(Preorder(st, top, bound, n))
    decreases if n == 0 then 0 else bound + 1 - |st[n].key|
  {
    if n == 0 {
      EmptyPreorder(st, top, bound);
    } else {
      hide NoRepeat, Preorder;
      PreorderOf(st, top, bound, n);
      var l, r := st[n].left, st[n].right;
      if l != 0 {
        ChildBelow(st, top, n, false);
      }
      if r != 0 {
        ChildBelow(st, top, n, true);
      }
      EmptyPreorder(st, top, bound);
      hide Bounded;
      PreorderNoRepeat(st, top, bound, l);
      PreorderNoRepeat(st, top, bound, r);
      forall x
        ensures !(x in Preorder(st, top, bound, l) && x in Preorder(st, top, bound, r))
        ensures x in Preorder(st, top, bound, l) || x in Preorder(st, top, bound, r) ==> x != n
      {
        if l != 0 {
          PreorderIsSubtree(st, top, bound, l, x);
        }
        if r != 0 {
          PreorderIsSubtree(st, top, bound, r, x);
        }
      }
      NoRepeatConcat(n, Preorder(st, top, bound, l), Preorder(st, top, bound, r));
    }
  }

  lemma SubtreeOf(st: Store, top: nat, n: nat, x: nat)
    requires Tree(st, top) && n in st && x in st && x != n && st[n].key <= st[x].key
    ensures var l, r := st[n].left, st[n].right;
            0 !in st && ((l in st && st[l].key <= st[x].key) || (r in st && st[r].key <= st[x].key))
  {
    assert Leads(st, n, x);
    hide LinkOk, ParentOk;
  }

  lemma TopRemaining(st: Store, top: nat, bound: nat)
    requires Bounded(st, top, bound)
    ensures (top != 0 ==> top in st) && Remaining(st, top, bound, top) == Preorder(st, top, bound, top)
  {
  }

  lemma LeafRemaining(st: Store, top: nat, bound: nat, n: nat)
    requires Bounded(st, top, bound) && n in st && n != 0 && st[n].left == 0 && st[n].right == 0
    ensures Remaining(st, top, bound, n) == [n] + After(st, top, bound, n)
  {
    hide Bounded, Preorder, After;
    PreorderOf(st, top, bound, n);
    EmptyPreorder(st, top, bound);
    assert [n] + [] + [] == [n];
  }

  lemma NoneRemaining(st: Store, top: nat, bound: nat)
    requires Bounded(st, top, bound)
    ensures Remaining(st, top, bound, 0) == []
  {
  }

  /** What comes next is another node. */
  lemma MovesOn(st: Store, top: nat, bound: nat, n: nat, next: nat)
    requires Bounded(st, top, bound) && n in st && n != 0 && (next != 0 ==> next in st)
    requires Remaining(st, top, bound, n) == [n] + Remaining(st, top, bound, next)
    ensures next != n
  {
    assert |Remaining(st, top, bound, n)| != |Remaining(st, top, bound, next)|;
  }

  /** The preorder of the whole tree holds every node exactly once. */
  lemma PreorderIsAll(st: Store, top: nat, bound: nat)
    requires Bounded(st, top, bound)
    ensures top != 0 ==> top in st
    ensures NoRepeat(Preorder(st, top, bound, top)) && forall x :: x in Preorder(st, top, bound, top) <==> x in st
  {
    TopRemaining(st, top, bound);
    PreorderNoRepeat(st, top, bound, top);
    forall x
      ensures x in Preorder(st, top, bound, top) <==> x in st
    {
      if top == 0 {
        EmptyPreorder(st, top, bound);
      } else {
        PreorderIsSubtree(st, top, bound, top, x);
      }
    }
  }

  // ----- the order is that of the prefixes -----

  /** a comes before b: it is a proper beginning of b, or has a zero where they first differ. */
  ghost predicate LexBefore(a: seq<bool>, b: seq<bool>) {
    a < b || exists i :: 0 <= i < |a| && i < |b| && a[..i] == b[..i] && !a[i] && b[i]
  }

  lemma LexSplit(k: seq<bool>, a: seq<bool>, b: seq<bool>)
    requires k < a && k < b && !a[|k|] && b[|k|]
    ensures LexBefore(a, b)
  {
    assert a[..|k|] == b[..|k|];
  }

  /** Every key in the first list comes before every key in the second. */
  ghost predicate AllBefore(st: Store, xs: seq<nat>, ys: seq<nat>) {
    forall x, y :: x in xs && y in ys ==> x in st && y in st && LexBefore(st[x].key, st[y].key)
  }

  ghost predicate LexSorted(st: Store, xs: seq<nat>) {
    && (forall x :: x in xs ==> x in st)
    && (forall i, j :: 0 <= i < j < |xs| ==> LexBefore(st[xs[i]].key, st[xs[j]].key))
  }

  lemma SortedConcat(st: Store, xs: seq<nat>, ys: seq<nat>)
    requires LexSorted(st, xs) && LexSorted(st, ys) && AllBefore(st, xs, ys)
    ensures LexSorted(st, xs + ys)
  {
    hide LexBefore;
    var q := xs + ys;
    forall i, j | 0 <= i < j < |q|
      ensures LexBefore(st[q[i]].key, st[q[j]].key)
    {
      if i < |xs| <= j {
        assert xs[i] in xs && ys[j - |xs|] in ys;
      }
    }
  }

  /** A node comes before everything below it, and its left side before its right side. */
  lemma SidesInOrder(st: Store, top: nat, bound: nat, n: nat)
    requires Bounded(st, top, bound) && n in st && n != 0
    ensures var l, r := st[n].left, st[n].right;
            && (l != 0 ==> l in st) && (r != 0 ==> r in st)
            && var ls, rs := Preorder(st, top, bound, l), Preorder(st, top, bound, r);
               AllBefore(st, [n], ls) && AllBefore(st, [n] + ls, rs)
  {
    hide Preorder, Tree, LexBefore;
    var l, r := st[n].left, st[n].right;
    EmptyPreorder(st, top, bound);
    if l != 0 {
      ChildBelow(st, top, n, false);
    }
    if r != 0 {
      ChildBelow(st, top, n, true);
    }
    forall x | l != 0 && x in Preorder(st, top, bound, l)
      ensures x in st && st[n].key < st[x].key && !st[x].key[|st[n].key|] && LexBefore(st[n].key, st[x].key)
    {
      PreorderIsSubtree(st, top, bound, l, x);
      ShorterBefore(st[n].key, st[x].key);
    }
    forall x | r != 0 && x in Preorder(st, top, bound, r)
      ensures x in st && st[n].key < st[x].key && st[x].key[|st[n].key|] && LexBefore(st[n].key, st[x].key)
    {
      PreorderIsSubtree(st, top, bound, r, x);
      ShorterBefore(st[n].key, st[x].key);
    }
    forall x, y | l != 0 && r != 0 && x in Preorder(st, top, bound, l) && y in Preorder(st, top, bound, r)
      ensures LexBefore(st[x].key, st[y].key)
    {
      LexSplit(st[n].key, st[x].key, st[y].key);
    }
  }

  lemma ShorterBefore(a: seq<bool>, b: seq<bool>)
    requires a < b
    ensures LexBefore(a, b)
  {
  }

  lemma OneSorted(st: Store, n: nat)
    requires n in st
    ensures LexSorted(st, [n])
  {
  }

  /** The preorder visits the prefixes in lexicographic order, a covering prefix before those it covers. */
  lemma {:induction false} PreorderSorted(st: Store, top: nat, bound: nat, n: nat)
    requires Bounded(st, top, bound) && (n != 0 ==> n in st)
    ensures LexSorted(st, Preorder(st, top, bound, n))
    decreases if n == 0 then 0 else bound + 1 - |st[n].key|
  {
    hide Preorder, Tree, LexBefore, LexSorted, AllBefore;
    if n == 0 {
      EmptyPreorder(st, top, bound);
      NoneSorted(st);
    } else {
      PreorderOf(st, top, bound, n);
      var l, r := st[n].left, st[n].right;
      if l != 0 {
        ChildBelow(st, top, n, false);
      }
      if r != 0 {
        ChildBelow(st, top, n, true);
      }
      PreorderSorted(st, top, bound, l);
      PreorderSorted(st, top, bound, r);
      SidesInOrder(st, top, bound, n);
      OneSorted(st, n);
      var ls, rs := Preorder(st, top, bound, l), Preorder(st, top, bound, r);
      SortedConcat(st, [n], ls);
      SortedConcat(st, [n] + ls, rs);
    }
  }

  lemma NoneSorted(st: Store)
    ensures LexSorted(st, [])
  {
  }
}

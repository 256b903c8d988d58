/**
  The size of a route table: path compression and the removal of stubs leave at
  most 2L - 1 nodes for L nodes in use.
 */
module TrieSize {
  import opened TrieStores
  import opened RouteTables

  function Locked(st: Store): set<nat> {
    set n | n in st && st[n].lock > 0
  }

  function Glue(st: Store): set<nat> {
    set n | n in st && st[n].lock == 0
  }

  function Kids(st: Store, ns: set<nat>): set<nat>
    requires ns <= st.Keys
  {
    (set n | n in ns :: st[n].left) + (set n | n in ns :: st[n].right)
  }

  /** The two children of a glue node are different nodes below it, which point back to it. */
  lemma TwoChildren(st: Store, top: nat, n: nat)
    requires Good(st, top) && n in Glue(st)
    ensures var l, r := st[n].left, st[n].right;
            l in st && r in st && l != r && l != top && r != top && st[l].parent == n && st[r].parent == n
  {
    assert Held(st[n]);
    NodeOkOf(st, top, n);
    ZeroNotIn(st, top);
    assert LinkOk(st, n, false) && LinkOk(st, n, true);
    hide Covering, Unique;
  }

  lemma {:induction false} KidsCount(st: Store, top: nat, ns: set<nat>)
    requires Good(st, top) && ns <= Glue(st)
    ensures |Kids(st, ns)| == 2 * |ns| && Kids(st, ns) <= st.Keys - {top}
    ensures forall k :: k in Kids(st, ns) ==> k in st && st[k].parent in ns
    decreases |ns|
  {
    hide Good;
    if ns == {} {
    } else {
      var n :| n in ns;
      var rest := ns - {n};
      TwoChildren(st, top, n);
      KidsCount(st, top, rest);
      assert Kids(st, ns) == Kids(st, rest) + {st[n].left, st[n].right};
    }
  }

  lemma SubsetSize(a: set<nat>, b: set<nat>)
    requires a <= b
    ensures |a| <= |b|
  {
    assert b == a + (b - a);
  }

  /** A table in use has at most 2L - 1 nodes, and one that is not in use has none. */
  lemma SizeBound(st: Store, top: nat)
    requires Good(st, top)
    ensures if Locked(st) == {} then st == map[] else |st| <= 2 * |Locked(st)| - 1
  {
    hide Good, Kids;
    if st != map[] {
      TopIn(st, top);
      var glue := Glue(st);
      KidsCount(st, top, glue);
      SubsetSize(Kids(st, glue), st.Keys - {top});
      assert st.Keys == glue + Locked(st);
      assert |st.Keys| == |glue| + |Locked(st)|;
    }
  }

  lemma TopIn(st: Store, top: nat)
    requires Good(st, top) && st != map[]
    ensures top in st
  {
  }
}

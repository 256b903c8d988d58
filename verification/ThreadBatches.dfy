/** Moving a whole set of threads off one list, one at a time, as thread_process_fd and thread_cancel_event do. */
module ThreadBatches {
  import opened Sequences
  import opened ThreadPool

  /** The elements of a list that are in a set, and those that are not, in list order. */
  ghost function Only(s: seq<nat>, c: set<nat>): seq<nat> {
    if s == [] then []
    else Only(s[..|s| - 1], c) + if s[|s| - 1] in c then [s[|s| - 1]] else []
  }

  ghost function Except(s: seq<nat>, c: set<nat>): seq<nat> {
    if s == [] then []
    else Except(s[..|s| - 1], c) + if s[|s| - 1] in c then [] else [s[|s| - 1]]
  }

  lemma {:induction false} SplitMembers(s: seq<nat>, c: set<nat>)
    ensures forall t :: t in Only(s, c) <==> t in s && t in c
    ensures forall t :: t in Except(s, c) <==> t in s && t !in c
  {
    if s != [] {
      SplitMembers(s[..|s| - 1], c);
      assert s == s[..|s| - 1] + [s[|s| - 1]];
    }
  }

  ghost function Retype(pool: Pool, s: seq<nat>, c: set<nat>, to: Kind): Pool {
    map t | t in pool :: if t in s && t in c then pool[t].(kind := to) else pool[t]
  }

  /** The state once the first `n` threads of list `k` have been looked at. */
  ghost function Partial(st: State, k: Kind, to: Kind, c: set<nat>, n: nat): State
    requires Six(st.lists) && n <= |st.lists[k]|
  {
    var done, rest := st.lists[k][..n], st.lists[k][n..];
    st.(pool := Retype(st.pool, done, c, to),
        lists := st.lists[k := Except(done, c) + rest][to := st.lists[to] + Only(done, c)])
  }

  /** All of them moved at once. */
  ghost function MoveSet(st: State, k: Kind, to: Kind, c: set<nat>): State
    requires Six(st.lists)
  {
    st.(pool := Retype(st.pool, st.lists[k], c, to),
        lists := st.lists[k := Except(st.lists[k], c)][to := st.lists[to] + Only(st.lists[k], c)])
  }

  lemma PartialStart(st: State, k: Kind, to: Kind, c: set<nat>)
    requires Six(st.lists) && k != to
    ensures Partial(st, k, to, c, 0) == st
  {
    var p := Partial(st, k, to, c, 0);
    assert p.pool == st.pool;
    var l := st.lists;
    assert l[k][..0] == [] && [] + l[k][0..] == l[k] && l[to] + [] == l[to];
    assert p.lists == l[k := l[k]][to := l[to]] == l;
  }

  lemma PartialEnd(st: State, k: Kind, to: Kind, c: set<nat>)
    requires Six(st.lists) && k != to
    ensures Partial(st, k, to, c, |st.lists[k]|) == MoveSet(st, k, to, c)
  {
    var s := st.lists[k];
    assert s[..|s|] == s && s[|s|..] == [];
    assert Except(s, c) + [] == Except(s, c);
  }

  lemma NextSplit(s: seq<nat>, c: set<nat>, n: nat)
    requires n < |s|
    ensures Only(s[..n + 1], c) == Only(s[..n], c) + if s[n] in c then [s[n]] else []
    ensures Except(s[..n + 1], c) == Except(s[..n], c) + if s[n] in c then [] else [s[n]]
  {
    assert s[..n + 1][..n] == s[..n];
  }

  lemma PartialSkip(st: State, k: Kind, to: Kind, c: set<nat>, n: nat)
    requires Six(st.lists) && k != to && n < |st.lists[k]| && st.lists[k][n] !in c
    ensures Partial(st, k, to, c, n + 1) == Partial(st, k, to, c, n)
  {
    var s := st.lists[k];
    NextSplit(s, c, n);
    assert s[..n + 1] == s[..n] + [s[n]];
    assert Retype(st.pool, s[..n + 1], c, to) == Retype(st.pool, s[..n], c, to);
    assert Except(s[..n], c) + [s[n]] + s[n + 1..] == Except(s[..n], c) + s[n..];
    assert Only(s[..n], c) + [] == Only(s[..n], c);
  }

  lemma RestMember(s: seq<nat>, c: set<nat>, n: nat)
    requires NoRepeat(s) && n < |s|
    ensures s[n] !in s[..n] && s[n] !in Except(s[..n], c) && s[n] !in s[n + 1..]
    ensures Without(Except(s[..n], c) + s[n..], s[n]) == Except(s[..n], c) + s[n + 1..]
  {
    SplitMembers(s[..n], c);
    var a := Except(s[..n], c);
    assert s[n..] == [s[n]] + s[n + 1..];
    WithoutConcat(a, s[n..], s[n]);
    WithoutAbsent(a, s[n]);
    WithoutAbsent(s[n + 1..], s[n]);
    assert s[n..][1..] == s[n + 1..];
  }

  lemma {:induction false} WithoutConcat(a: seq<nat>, b: seq<nat>, t: nat)
    ensures Without(a + b, t) == Without(a, t) + Without(b, t)
  {
    if a == [] {
      assert a + b == b;
    } else {
      assert (a + b)[1..] == a[1..] + b;
      WithoutConcat(a[1..], b, t);
    }
  }

  lemma RetypeNext(pool: Pool, s: seq<nat>, c: set<nat>, to: Kind, n: nat)
    requires n < |s| && s[n] in c && s[n] in pool && s[n] !in s[..n]
    ensures Retype(pool, s[..n], c, to)[s[n] := pool[s[n]].(kind := to)] == Retype(pool, s[..n + 1], c, to)
    ensures Retype(pool, s[..n], c, to)[s[n]] == pool[s[n]]
  {
  }

  lemma TwoLists(l: Lists, k: Kind, to: Kind, x: seq<nat>, y: seq<nat>, x': seq<nat>, y': seq<nat>)
    requires k != to
    ensures l[k := x][to := y][k := x'][to := y'] == l[k := x'][to := y']
  {
  }

  lemma PartialMove(st: State, k: Kind, to: Kind, c: set<nat>, n: nat)
    requires Good(st, {}) && k != to && n < |st.lists[k]| && st.lists[k][n] in c
    ensures var t, p := st.lists[k][n], Partial(st, k, to, c, n);
      && t in p.pool && p.pool[t] == st.pool[t] && st.pool[t].kind == k
      && Move(p, t, to) == Partial(st, k, to, c, n + 1)
  {
    var l, s := st.lists, st.lists[k];
    OnThatList(st, k, n);
    hide Good, Retype, Except, Only, Without, NoRepeat;
    RestMember(s, c, n);
    NextSplit(s, c, n);
    RetypeNext(st.pool, s, c, to, n);
    var a, b := Except(s[..n], c), l[to] + Only(s[..n], c);
    TwoLists(l, k, to, a + s[n..], b, a + s[n + 1..], b + [s[n]]);
    assert b + [s[n]] == l[to] + Only(s[..n + 1], c);
    assert Except(s[..n + 1], c) == a;
  }

  /** The next thread has not been touched yet. */
  lemma PartialSame(st: State, k: Kind, to: Kind, c: set<nat>, n: nat)
    requires Good(st, {}) && n < |st.lists[k]|
    ensures var t, p := st.lists[k][n], Partial(st, k, to, c, n); t in st.pool && t in p.pool && p.pool[t] == st.pool[t]
  {
  }

  /** Whether the lists and types are those of a partial move; descriptors are cleared beside it. */
  ghost predicate Reached(cur: State, st: State, k: Kind, to: Kind, c: set<nat>, n: nat)
    requires Six(st.lists) && n <= |st.lists[k]|
  {
    var p := Partial(st, k, to, c, n);
    cur.pool == p.pool && cur.lists == p.lists && cur.alloc == p.alloc
  }

  lemma MoveIgnoresFds(a: State, b: State, t: nat, to: Kind)
    requires Six(a.lists) && t in a.pool && a.pool == b.pool && a.lists == b.lists && a.alloc == b.alloc
    ensures var x, y := Move(Cleared(a, t), t, to), Move(b, t, to);
      x.pool == y.pool && x.lists == y.lists && x.alloc == y.alloc
  {
  }

  lemma NextReached(cur: State, st: State, k: Kind, to: Kind, c: set<nat>, n: nat)
    requires Good(st, {}) && Good(cur, {}) && k != to && (to == Ready || to == Unused)
    requires n < |st.lists[k]| && Reached(cur, st, k, to, c, n)
    ensures var t := st.lists[k][n];
      && t in st.pool && t in cur.pool && cur.pool[t] == st.pool[t] && st.pool[t].kind == k
      && (t !in c ==> Reached(cur, st, k, to, c, n + 1))
      && (t in c ==> Good(Move(Cleared(cur, t), t, to), {})
                     && Reached(Move(Cleared(cur, t), t, to), st, k, to, c, n + 1))
  {
    var t, p := st.lists[k][n], Partial(st, k, to, c, n);
    PartialSame(st, k, to, c, n);
    OnThatList(st, k, n);
    assert Six(st.lists) && Six(cur.lists);
    hide Good, Partial, Six, NoRepeat;
    if t in c {
      PartialMove(st, k, to, c, n);
      MoveIgnoresFds(cur, p, t, to);
      MoveGood(cur, t, to);
    } else {
      PartialSkip(st, k, to, c, n);
    }
  }

  lemma OnThatList(st: State, k: Kind, n: nat)
    requires Good(st, {}) && n < |st.lists[k]|
    ensures NoRepeat(st.lists[k]) && st.lists[k][n] in st.pool && st.pool[st.lists[k][n]].kind == k
  {
  }
}

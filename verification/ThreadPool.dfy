/** The state of the scheduler of lib/thread.c as values: the threads, the six lists, the descriptor sets. */
module ThreadPool {
  import opened Timevals
  import opened Sequences

  /** The six types of a thread, each the name of a list. */
  datatype Kind = Read | Write | Timer | Event | Ready | Unused

  /** The union a thread carries: a value, a descriptor or a deadline. */
  datatype Payload = Value(val: int) | Descriptor(fd: nat) | Sands(sands: Timeval)

  datatype Item = Item(kind: Kind, func: nat, arg: nat, u: Payload)

  /** What each thread ever allocated holds, by its address. */
  type Pool = map<nat, Item>

  /** The six lists, each under the type that names it. */
  type Lists = map<Kind, seq<nat>>

  const NO_LISTS: Lists := map[Read := [], Write := [], Timer := [], Event := [], Ready := [], Unused := []]

  ghost predicate Six(l: Lists) {
    forall k: Kind :: k in l
  }

  ghost function Total(l: Lists): nat
    requires Six(l)
  {
    |l[Read]| + |l[Write]| + |l[Timer]| + |l[Event]| + |l[Ready]| + |l[Unused]|
  }

  lemma TotalAfter(l: Lists, k: Kind, s: seq<nat>)
    requires Six(l)
    ensures Six(l[k := s]) && Total(l[k := s]) == Total(l) - |l[k]| + |s|
  {
  }

  /** A list holds only allocated threads of its type, each once, and none that is free. */
  ghost predicate Listed(pool: Pool, s: seq<nat>, k: Kind, free: set<nat>) {
    && NoRepeat(s)
    && (forall t :: t in s ==> t in pool && t !in free && pool[t].kind == k)
  }

  /** Every thread is on the list its type names, once, and on no other; those in `free` are on none.
      The counts of the lists and the free threads add up to what was allocated. */
  ghost predicate Conserved(pool: Pool, l: Lists, free: set<nat>, alloc: nat) {
    && Six(l)
    && (forall t :: t in pool <==> 0 <= t < alloc)
    && (forall k: Kind :: Listed(pool, l[k], k, free))
    && (forall t :: t in pool && t !in free ==> t in l[pool[t].kind])
    && (forall t :: t in free ==> t in pool)
    && alloc == Total(l) + |free|
  }

  /** A thread is on exactly one list: the one its type names. */
  lemma OnOneList(pool: Pool, l: Lists, alloc: nat, t: nat, k: Kind)
    requires Conserved(pool, l, {}, alloc) && t in pool
    ensures k in l && (t in l[k] <==> k == pool[t].kind)
  {
  }

  lemma WithoutOne(s: seq<nat>, t: nat)
    requires NoRepeat(s) && t in s
    ensures NoRepeat(Without(s, t)) && |Without(s, t)| == |s| - 1
    ensures forall x :: x in Without(s, t) <==> x in s && x != t
  {
    var i :| 0 <= i < |s| && s[i] == t;
    WithoutAt(s, i);
    NoRepeatAfterCut(s, i);
    WithoutMembers(s, t);
  }

  lemma TakeKeeps(pool: Pool, l: Lists, free: set<nat>, alloc: nat, k: Kind, t: nat)
    requires Conserved(pool, l, free, alloc) && t in l[k]
    ensures Conserved(pool, l[k := Without(l[k], t)], free + {t}, alloc)
  {
    hide Without, Total, NoRepeat;
    var s := l[k];
    assert Listed(pool, s, k, free);
    WithoutOne(s, t);
    TotalAfter(l, k, Without(s, t));
    var l' := l[k := Without(s, t)];
    forall x: Kind
      ensures Listed(pool, l'[x], x, free + {t})
    {
      assert Listed(pool, l[x], x, free);
    }
  }

  lemma PutKeeps(pool: Pool, l: Lists, free: set<nat>, alloc: nat, k: Kind, t: nat, i: nat)
    requires Conserved(pool, l, free, alloc) && t in free && pool[t].kind == k && i <= |l[k]|
    ensures Conserved(pool, l[k := Splice(l[k], i, t)], free - {t}, alloc)
  {
    hide Splice, Total, NoRepeat;
    var s := l[k];
    assert Listed(pool, s, k, free);
    NoRepeatAfterSplice(s, i, t);
    SpliceMembers(s, i, t);
    TotalAfter(l, k, Splice(s, i, t));
    var l' := l[k := Splice(s, i, t)];
    forall x: Kind
      ensures Listed(pool, l'[x], x, free - {t})
    {
      assert Listed(pool, l[x], x, free);
    }
  }

  /** A free thread may be given any contents. */
  lemma FillKeeps(pool: Pool, l: Lists, free: set<nat>, alloc: nat, t: nat, item: Item)
    requires Conserved(pool, l, free, alloc) && t in free
    ensures Conserved(pool[t := item], l, free, alloc)
  {
  }

  lemma AllocKeeps(pool: Pool, l: Lists, free: set<nat>, alloc: nat, item: Item)
    requires Conserved(pool, l, free, alloc)
    ensures Conserved(pool[alloc := item], l, free + {alloc}, alloc + 1)
  {
    hide Total, NoRepeat;
    forall x: Kind
      ensures Listed(pool[alloc := item], l[x], x, free + {alloc})
    {
      assert Listed(pool, l[x], x, free);
    }
  }

  /** A descriptor is in the set exactly when one thread of the list watches it. */
  ghost predicate Watches(pool: Pool, s: seq<nat>, fds: set<nat>) {
    && (forall t :: t in s ==> t in pool && pool[t].u.Descriptor? && pool[t].u.fd in fds)
    && (forall fd :: fd in fds ==> exists t :: t in s && pool[t].u == Descriptor(fd))
    && (forall t, x :: t in s && x in s && pool[t].u == pool[x].u ==> t == x)
  }

  lemma WatchesMore(pool: Pool, s: seq<nat>, fds: set<nat>, t: nat)
    requires Watches(pool, s, fds) && t in pool && pool[t].u.Descriptor? && pool[t].u.fd !in fds
    ensures Watches(pool, Splice(s, |s|, t), fds + {pool[t].u.fd})
  {
  }

  lemma WatchesLess(pool: Pool, s: seq<nat>, fds: set<nat>, t: nat)
    requires Watches(pool, s, fds) && t in s
    ensures Watches(pool, Without(s, t), fds - {pool[t].u.fd})
  {
    var r, f := Without(s, t), fds - {pool[t].u.fd};
    WithoutMembers(s, t);
    hide Without;
    forall fd | fd in f
      ensures exists x :: x in r && pool[x].u == Descriptor(fd)
    {
      var x :| x in s && pool[x].u == Descriptor(fd);
      assert x in r;
    }
  }

  lemma WatchesFrame(pool: Pool, pool': Pool, s: seq<nat>, fds: set<nat>)
    requires Watches(pool, s, fds)
    requires forall t :: t in s ==> t in pool' && pool'[t].u == pool[t].u
    ensures Watches(pool', s, fds)
  {
  }

  /** Deadlines never decrease along the timer list. */
  ghost predicate Ordered(pool: Pool, s: seq<nat>) {
    && (forall t :: t in s ==> t in pool && pool[t].u.Sands? && Normal(pool[t].u.sands))
    && (forall i, j :: 0 <= i < j < |s| ==> Cmp(pool[s[i]].u.sands, pool[s[j]].u.sands) <= 0)
  }

  /** The place among the timers where the search for a deadline stops. */
  ghost predicate Slot(pool: Pool, s: seq<nat>, i: nat, at: Timeval)
    requires Ordered(pool, s)
  {
    && i <= |s|
    && (forall j :: 0 <= j < i ==> Cmp(at, pool[s[j]].u.sands) > 0)
    && (i < |s| ==> Cmp(at, pool[s[i]].u.sands) <= 0)
  }

  lemma OrderedSplice(pool: Pool, s: seq<nat>, i: nat, t: nat)
    requires Ordered(pool, s) && t in pool && pool[t].u.Sands? && Normal(pool[t].u.sands)
    requires Slot(pool, s, i, pool[t].u.sands)
    ensures Ordered(pool, Splice(s, i, t))
  {
    var r := Splice(s, i, t);
    SpliceMembers(s, i, t);
    hide Splice, Cmp;
    forall a, b | 0 <= a < b < |r|
      ensures Cmp(pool[r[a]].u.sands, pool[r[b]].u.sands) <= 0
    {
      SpliceAt(s, i, t, a);
      SpliceAt(s, i, t, b);
      if a == i && i < b - 1 {
        CmpTransitive(pool[t].u.sands, pool[s[i]].u.sands, pool[s[b - 1]].u.sands);
      }
      if b == i {
        CmpFlip(pool[t].u.sands, pool[s[a]].u.sands);
      }
    }
  }

  lemma SpliceAt(s: seq<nat>, i: nat, t: nat, j: nat)
    requires i <= |s| && j <= |s|
    ensures Splice(s, i, t)[j] == if j < i then s[j] else if j == i then t else s[j - 1]
  {
  }

  lemma CmpTransitive(a: Timeval, b: Timeval, c: Timeval)
    requires Cmp(a, b) <= 0 && Cmp(b, c) <= 0
    ensures Cmp(a, c) <= 0
  {
  }

  lemma CmpFlip(a: Timeval, b: Timeval)
    ensures Cmp(a, b) == -Cmp(b, a)
  {
  }

  lemma OrderedCut(pool: Pool, s: seq<nat>, t: nat)
    requires Ordered(pool, s) && NoRepeat(s) && t in s
    ensures Ordered(pool, Without(s, t))
  {
    var i :| 0 <= i < |s| && s[i] == t;
    WithoutAt(s, i);
    WithoutMembers(s, t);
    var r := Cut(s, i);
    hide Without, NoRepeat, Cut, Cmp;
    forall a, b | 0 <= a < b < |r|
      ensures Cmp(pool[r[a]].u.sands, pool[r[b]].u.sands) <= 0
    {
      CutAt(s, i, a);
      CutAt(s, i, b);
    }
  }

  lemma CutAt(s: seq<nat>, i: nat, j: nat)
    requires i < |s| && j < |s| - 1
    ensures Cut(s, i)[j] == s[if j < i then j else j + 1]
  {
  }

  lemma OrderedFrame(pool: Pool, pool': Pool, s: seq<nat>)
    requires Ordered(pool, s)
    requires forall t :: t in s ==> t in pool' && pool'[t].u == pool[t].u
    ensures Ordered(pool', s)
  {
  }

  datatype State = State(pool: Pool, lists: Lists, readfd: set<nat>, writefd: set<nat>, alloc: nat)

  const INITIAL := State(map[], NO_LISTS, {}, {}, 0)

  /** Conservation, exact descriptor sets and sorted timers, all at once. */
  ghost predicate Good(st: State, free: set<nat>) {
    && Six(st.lists)
    && Conserved(st.pool, st.lists, free, st.alloc)
    && Watches(st.pool, st.lists[Read], st.readfd)
    && Watches(st.pool, st.lists[Write], st.writefd)
    && Ordered(st.pool, st.lists[Timer])
  }

  lemma InitialGood()
    ensures Good(INITIAL, {})
  {
    forall k: Kind
      ensures k in NO_LISTS && NO_LISTS[k] == []
    {
      match k case Read => case Write => case Timer => case Event => case Ready => case Unused =>
    }
    assert forall k: Kind :: Listed(map[], NO_LISTS[k], k, {});
  }

  /** The thread the next request gets: the first unused one, or a new one. */
  ghost function Supplied(st: State): nat
    requires Six(st.lists)
  {
    if st.lists[Unused] == [] then st.alloc else st.lists[Unused][0]
  }

  /** That thread taken and filled, on no list yet. */
  ghost function Draw(st: State, item: Item): State
    requires Six(st.lists)
  {
    var u := st.lists[Unused];
    if u == [] then st.(pool := st.pool[st.alloc := item], alloc := st.alloc + 1)
    else st.(pool := st.pool[u[0] := item], lists := st.lists[Unused := u[1..]])
  }

  /** The rest of the invariant follows when the three lists keep their threads and their payloads. */
  lemma SameWatch(st: State, st': State, free: set<nat>, free': set<nat>)
    requires Good(st, free) && Conserved(st'.pool, st'.lists, free', st'.alloc)
    requires st'.readfd == st.readfd && st'.writefd == st.writefd
    requires forall k :: k in {Read, Write, Timer} ==> st'.lists[k] == st.lists[k]
    requires forall k, t :: k in {Read, Write, Timer} && t in st.lists[k] ==> st'.pool[t].u == st.pool[t].u
    ensures Good(st', free')
  {
    forall k: Kind
      ensures Listed(st.pool, st.lists[k], k, free) && Listed(st'.pool, st'.lists[k], k, free')
    {
    }
    assert Read in {Read, Write, Timer} && Write in {Read, Write, Timer} && Timer in {Read, Write, Timer};
    WatchesFrame(st.pool, st'.pool, st.lists[Read], st.readfd);
    WatchesFrame(st.pool, st'.pool, st.lists[Write], st.writefd);
    OrderedFrame(st.pool, st'.pool, st.lists[Timer]);
  }

  lemma DrawConserves(st: State, item: Item)
    requires Good(st, {})
    ensures var st' := Draw(st, item); Conserved(st'.pool, st'.lists, {Supplied(st)}, st'.alloc)
  {
    var t, u := Supplied(st), st.lists[Unused];
    assert {} + {t} == {t};
    if u == [] {
      AllocKeeps(st.pool, st.lists, {}, st.alloc, item);
    } else {
      assert Listed(st.pool, u, Unused, {});
      WithoutAt(u, 0);
      assert Without(u, t) == u[1..];
      TakeKeeps(st.pool, st.lists, {}, st.alloc, Unused, t);
      FillKeeps(st.pool, st.lists[Unused := u[1..]], {t}, st.alloc, t, item);
    }
  }

  lemma DrawGood(st: State, item: Item)
    requires Good(st, {})
    ensures Good(Draw(st, item), {Supplied(st)})
    ensures Supplied(st) in Draw(st, item).pool && Draw(st, item).pool[Supplied(st)] == item
    ensures forall k: Kind :: k != Unused ==> Draw(st, item).lists[k] == st.lists[k]
  {
    DrawConserves(st, item);
    var t, u, st' := Supplied(st), st.lists[Unused], Draw(st, item);
    forall k: Kind | k != Unused
      ensures t !in st.lists[k]
    {
      assert Listed(st.pool, st.lists[k], k, {}) && Listed(st.pool, u, Unused, {});
    }
    hide NoRepeat, Watches, Ordered;
    SameWatch(st, st', {}, {t});
  }

  /** A drawn thread put on the list of its type, at a place. */
  ghost function Enlist(st: State, t: nat, i: nat): State
    requires Six(st.lists) && t in st.pool && i <= |st.lists[st.pool[t].kind]|
  {
    var k := st.pool[t].kind;
    st.(lists := st.lists[k := Splice(st.lists[k], i, t)])
  }

  /** A thread moved from its list to the end of another, which its type then names. */
  ghost function Move(st: State, t: nat, to: Kind): State
    requires Six(st.lists) && t in st.pool
  {
    var k := st.pool[t].kind;
    var l := st.lists[k := Without(st.lists[k], t)];
    st.(pool := st.pool[t := st.pool[t].(kind := to)], lists := l[to := l[to] + [t]])
  }

  /** Moving a thread off a watched list also clears its descriptor. */
  ghost function Cleared(st: State, t: nat): State
    requires t in st.pool
  {
    match (st.pool[t].kind, st.pool[t].u)
    case (Read, Descriptor(fd)) => st.(readfd := st.readfd - {fd})
    case (Write, Descriptor(fd)) => st.(writefd := st.writefd - {fd})
    case _ => st
  }

  lemma MoveConserves(st: State, t: nat, to: Kind)
    requires Good(st, {}) && t in st.pool
    ensures Conserved(Move(st, t, to).pool, Move(st, t, to).lists, {}, st.alloc)
  {
    var k := st.pool[t].kind;
    var l := st.lists[k := Without(st.lists[k], t)];
    TakeKeeps(st.pool, st.lists, {}, st.alloc, k, t);
    assert {} + {t} == {t} && {t} - {t} == {};
    var pool := st.pool[t := st.pool[t].(kind := to)];
    FillKeeps(st.pool, l, {t}, st.alloc, t, pool[t]);
    PutKeeps(pool, l, {t}, st.alloc, to, t, |l[to]|);
    AppendIsSplice(l[to], t);
  }

  lemma WatchesAfter(pool: Pool, pool': Pool, s: seq<nat>, fds: set<nat>, t: nat, gone: bool)
    requires Watches(pool, s, fds) && (gone ==> t in s)
    requires forall x :: x in s ==> x in pool' && pool'[x].u == pool[x].u
    ensures if gone then Watches(pool', Without(s, t), fds - {pool[t].u.fd}) else Watches(pool', s, fds)
  {
    WatchesFrame(pool, pool', s, fds);
    if gone {
      WatchesLess(pool', s, fds, t);
    }
  }

  lemma OrderedAfter(pool: Pool, pool': Pool, s: seq<nat>, t: nat, gone: bool)
    requires Ordered(pool, s) && NoRepeat(s) && (gone ==> t in s)
    requires forall x :: x in s ==> x in pool' && pool'[x].u == pool[x].u
    ensures if gone then Ordered(pool', Without(s, t)) else Ordered(pool', s)
  {
    OrderedFrame(pool, pool', s);
    if gone {
      OrderedCut(pool', s, t);
    }
  }

  /** Clearing touches the descriptor sets only. */
  lemma ClearedParts(st: State, t: nat)
    requires t in st.pool
    requires st.pool[t].kind == Read || st.pool[t].kind == Write ==> st.pool[t].u.Descriptor?
    ensures var k, st' := st.pool[t].kind, Cleared(st, t);
      && st' == st.(readfd := st'.readfd, writefd := st'.writefd)
      && st'.readfd == (if k == Read then st.readfd - {st.pool[t].u.fd} else st.readfd)
      && st'.writefd == (if k == Write then st.writefd - {st.pool[t].u.fd} else st.writefd)
  {
  }

  lemma MoveParts(st: State, t: nat, to: Kind)
    requires Six(st.lists) && t in st.pool && (to == Ready || to == Unused)
    requires st.pool[t].kind == Read || st.pool[t].kind == Write ==> st.pool[t].u.Descriptor?
    ensures var k, st' := st.pool[t].kind, Move(Cleared(st, t), t, to);
      && st'.pool == Move(st, t, to).pool && st'.lists == Move(st, t, to).lists && st'.alloc == st.alloc
      && (forall x :: x in st.pool ==> x in st'.pool && st'.pool[x].u == st.pool[x].u)
      && (forall x :: x == Read || x == Write || x == Timer ==>
            st'.lists[x] == if x == k then Without(st.lists[x], t) else st.lists[x])
      && st'.readfd == (if k == Read then st.readfd - {st.pool[t].u.fd} else st.readfd)
      && st'.writefd == (if k == Write then st.writefd - {st.pool[t].u.fd} else st.writefd)
  {
    hide Without, Cleared;
    ClearedParts(st, t);
  }

  lemma OnItsList(st: State, t: nat)
    requires Good(st, {}) && t in st.pool
    ensures t in st.lists[st.pool[t].kind]
    ensures st.pool[t].kind == Read ==> st.pool[t].u.Descriptor? && st.pool[t].u.fd in st.readfd
    ensures st.pool[t].kind == Write ==> st.pool[t].u.Descriptor? && st.pool[t].u.fd in st.writefd
  {
  }

  /** Taking a thread away keeps the two watched lists exact and the timers sorted. */
  lemma MoveGood(st: State, t: nat, to: Kind)
    requires Good(st, {}) && t in st.pool && (to == Ready || to == Unused)
    ensures Good(Move(Cleared(st, t), t, to), {})
  {
    var k := st.pool[t].kind;
    var st' := Move(Cleared(st, t), t, to);
    OnItsList(st, t);
    MoveParts(st, t, to);
    MoveConserves(st, t, to);
    hide NoRepeat, Watches, Ordered, Without, Move, Cleared, Total;
    assert forall x: Kind :: Listed(st.pool, st.lists[x], x, {});
    WatchesAfter(st.pool, st'.pool, st.lists[Read], st.readfd, t, k == Read);
    WatchesAfter(st.pool, st'.pool, st.lists[Write], st.writefd, t, k == Write);
    OrderedAfter(st.pool, st'.pool, st.lists[Timer], t, k == Timer);
  }

  /** Putting a drawn thread on its list: at the end, or among the timers where its deadline belongs. */
  lemma EnlistGood(st: State, t: nat, i: nat)
    requires Good(st, {t}) && t in st.pool && i <= |st.lists[st.pool[t].kind]|
    requires match st.pool[t].kind
      case Read => st.pool[t].u.Descriptor? && st.pool[t].u.fd !in st.readfd && i == |st.lists[Read]|
      case Write => st.pool[t].u.Descriptor? && st.pool[t].u.fd !in st.writefd && i == |st.lists[Write]|
      case Timer => st.pool[t].u.Sands? && Normal(st.pool[t].u.sands)
                    && Slot(st.pool, st.lists[Timer], i, st.pool[t].u.sands)
      case _ => true
    ensures Good(Watched(Enlist(st, t, i), t), {})
  {
    hide Conserved, Watches, Ordered, Splice, Total;
    var k := st.pool[t].kind;
    PutKeeps(st.pool, st.lists, {t}, st.alloc, k, t, i);
    assert {t} - {t} == {};
    match k
    case Read => WatchesMore(st.pool, st.lists[Read], st.readfd, t);
    case Write => WatchesMore(st.pool, st.lists[Write], st.writefd, t);
    case Timer => OrderedSplice(st.pool, st.lists[Timer], i, t);
    case _ =>
  }

  /** Putting a thread on a watched list also sets its descriptor. */
  ghost function Watched(st: State, t: nat): State
    requires t in st.pool
  {
    match (st.pool[t].kind, st.pool[t].u)
    case (Read, Descriptor(fd)) => st.(readfd := st.readfd + {fd})
    case (Write, Descriptor(fd)) => st.(writefd := st.writefd + {fd})
    case _ => st
  }
}

/**
  The six lists of a scheduler together (lib/thread.c): as long as no thread is on two
  of them, the link code does to each what ThreadPool does to its sequence of thread
  addresses, and leaves the other five alone.
 */
module SixLists {
  import opened Sequences
  import opened ThreadLists
  import opened ThreadPool

  /** The addresses of the threads of a list. */
  ghost function Named(name: map<Thread, nat>, s: seq<Thread>): (r: seq<nat>)
    requires forall t :: t in s ==> t in name
    ensures |r| == |s| && forall i :: 0 <= i < |s| ==> r[i] == name[s[i]]
  {
    seq(|s|, i requires 0 <= i < |s| => name[s[i]])
  }

  /** Different threads have different addresses. */
  ghost predicate OneToOne(name: map<Thread, nat>) {
    forall t, x :: t in name && x in name && name[t] == name[x] ==> t == x
  }

  lemma {:induction false} NamedWithout(name: map<Thread, nat>, s: seq<Thread>, t: Thread)
    requires OneToOne(name) && t in name && forall x :: x in s ==> x in name
    ensures forall x :: x in Without(s, t) ==> x in name
    ensures Named(name, Without(s, t)) == Without(Named(name, s), name[t])
    decreases |s|
  {
    if s != [] {
      NamedWithout(name, s[1..], t);
      assert Named(name, s)[1..] == Named(name, s[1..]);
      assert s[0] == t <==> name[s[0]] == name[t];
    }
  }

  lemma NamedSplice(name: map<Thread, nat>, s: seq<Thread>, i: nat, t: Thread)
    requires t in name && i <= |s| && forall x :: x in s ==> x in name
    ensures forall x :: x in Splice(s, i, t) ==> x in name
    ensures Named(name, Splice(s, i, t)) == Splice(Named(name, s), i, name[t])
  {
    assert s == s[..i] + s[i..];
    var a, b := Named(name, Splice(s, i, t)), Splice(Named(name, s), i, name[t]);
    assert forall j :: 0 <= j < |a| ==> a[j] == b[j];
  }

  type Threads = map<Kind, seq<Thread>>

  /** The threads of the lists are at the addresses that l lists. */
  ghost predicate Represents(name: map<Thread, nat>, e: Threads, l: Lists) {
    && OneToOne(name) && l.Keys == e.Keys
    && (forall k, t :: k in e && t in e[k] ==> t in name)
    && (forall k :: k in e ==> l[k] == Named(name, e[k]))
  }

  lemma SpliceRepresents(name: map<Thread, nat>, e: Threads, l: Lists, k: Kind, i: nat, t: Thread)
    requires Represents(name, e, l) && k in e && i <= |e[k]| && t in name
    ensures |l[k]| == |e[k]| && Represents(name, e[k := Splice(e[k], i, t)], l[k := Splice(l[k], i, name[t])])
  {
    NamedSplice(name, e[k], i, t);
    hide Splice;
  }

  lemma WithoutRepresents(name: map<Thread, nat>, e: Threads, l: Lists, k: Kind, t: Thread)
    requires Represents(name, e, l) && k in e && t in e[k]
    ensures Represents(name, e[k := Without(e[k], t)], l[k := Without(l[k], name[t])])
  {
    NamedWithout(name, e[k], t);
    hide Without;
  }

  /** The end of a list is where an added thread goes. */
  lemma AddRepresents(name: map<Thread, nat>, e: Threads, l: Lists, k: Kind, t: Thread)
    requires Represents(name, e, l) && k in e && t in name
    ensures Represents(name, e[k := e[k] + [t]], l[k := l[k] + [name[t]]])
  {
    AppendIsSplice(e[k], t);
    SpliceRepresents(name, e, l, k, |e[k]|, t);
    AppendIsSplice(l[k], name[t]);
  }

  /** No thread is on two lists. */
  ghost predicate Apart(e: Threads) {
    forall k, l, t :: k in e && l in e && k != l && t in e[k] ==> t !in e[l]
  }

  /** Two lists of different types share no thread. */
  lemma ApartAt(e: Threads, k: Kind, l: Kind, t: Thread)
    requires Apart(e) && k in e && l in e && k != l && t in e[k]
    ensures t !in e[l]
  {
  }

  lemma NoThreads(e: Threads)
    requires forall k :: k in e ==> e[k] == []
    ensures Apart(e)
  {
  }

  lemma ApartAfter(e: Threads, k: Kind, s: seq<Thread>, thread: Thread)
    requires Apart(e) && k in e && forall t :: t in s ==> t in e[k] || t == thread
    requires forall l :: l in e && l != k ==> thread !in e[l]
    ensures Apart(e[k := s])
  {
  }

  lemma ApartWithout(e: Threads, k: Kind, thread: Thread)
    requires Apart(e) && k in e
    ensures Apart(e[k := Without(e[k], thread)])
  {
    hide Without;
    WithoutMembers(e[k], thread);
  }

  /** There is a list for each type, and no object serves as two of them. */
  ghost predicate DifferentLists(lists: map<Kind, ThreadList>) {
    && (forall k: Kind :: k in lists)
    && (forall k: Kind, l: Kind :: k in lists && l in lists && k != l ==> lists[k] != lists[l])
  }

  /** The scheduler's invariant keeps its lists apart, so the link code is always safe there. */
  lemma ConservedIsApart(name: map<Thread, nat>, e: Threads, pool: Pool, l: Lists, free: set<nat>, alloc: nat)
    requires Represents(name, e, l) && Conserved(pool, l, free, alloc)
    ensures Apart(e)
  {
    forall k, x, t | k in e && x in e && k != x && t in e[k]
      ensures t !in e[x]
    {
      NamedIn(name, e[k], t);
      assert Listed(pool, l[k], k, free) && Listed(pool, l[x], x, free);
      if t in e[x] {
        NamedIn(name, e[x], t);
        assert false;
      }
    }
  }

  lemma NamedIn(name: map<Thread, nat>, s: seq<Thread>, t: Thread)
    requires t in s && forall x :: x in s ==> x in name
    ensures name[t] in Named(name, s)
  {
    var i :| 0 <= i < |s| && s[i] == t;
    assert Named(name, s)[i] == name[t];
  }

  /** The head of a list is its first thread, which stands there once. */
  lemma WithoutHead(list: ThreadList, thread: Thread)
    requires list.Valid() && list.head == thread
    ensures list.elems != [] && list.elems[0] == thread && Without(list.elems, thread) == list.elems[1..]
  {
    WithoutAt(list.elems, 0);
  }

  class ListHeads {
    const lists: map<Kind, ThreadList>

    ghost predicate Distinct() {
      DifferentLists(lists)
    }

    ghost function Elems(): (e: Threads)
      reads lists.Values
      ensures e.Keys == lists.Keys && forall k :: k in lists ==> e[k] == lists[k].elems
    {
      map k | k in lists :: lists[k].elems
    }

    ghost function Footprint(): (f: set<Thread>)
      reads lists.Values
      ensures forall k :: k in lists ==> forall t :: t in lists[k].elems ==> t in f
    {
      set k, t | k in lists && t in lists[k].elems :: t
    }

    ghost predicate Valid()
      reads lists.Values, Footprint()
    {
      Distinct() && Apart(Elems()) && forall k :: k in lists ==> lists[k].Valid()
    }

    constructor (lists: map<Kind, ThreadList>)
      requires DifferentLists(lists) && forall k :: k in lists ==> lists[k].Valid() && lists[k].elems == []
      ensures Valid() && this.lists == lists
    {
      hide DifferentLists, Apart, Footprint, Succ, Pred, At, NoRepeat;
      this.lists := lists;
      new;
      NoThreads(Elems());
    }

    /** Lists in order that hold apart threads make up the invariant. */
    lemma HoldThese(e: Threads)
      requires Distinct() && Apart(e) && e.Keys == lists.Keys
      requires forall k :: k in lists ==> lists[k].Valid() && lists[k].elems == e[k]
      ensures Valid() && Elems() == e
    {
      hide Apart, Distinct;
      assert Elems() == e;
    }

    method Add(k: Kind, thread: Thread)
      requires Valid() && forall x :: x in lists ==> thread !in lists[x].elems
      modifies lists[k], lists[k].elems`next, thread`next, thread`prev
      ensures Valid() && Elems() == old(Elems())[k := old(Elems())[k] + [thread]]
    {
      hide Succ, Pred, At, NoRepeat, Apart, Footprint, Splice;
      ghost var e := Elems();
      AddTo(k, thread);
      ApartAfter(e, k, e[k] + [thread], thread);
      HoldThese(e[k := e[k] + [thread]]);
    }

    /** That, and its effect on each of the lists. */
    method AddTo(k: Kind, thread: Thread)
      requires Valid() && forall x :: x in lists ==> thread !in lists[x].elems
      modifies lists[k], lists[k].elems`next, thread`next, thread`prev
      ensures lists[k].Valid() && lists[k].elems == old(lists[k].elems) + [thread]
      ensures forall x :: x in lists && x != k ==> lists[x].Valid() && lists[x].elems == old(lists[x].elems)
    {
      hide Succ, Pred, At, NoRepeat, Apart, Footprint, Splice;
      ghost var e := Elems();
      lists[k].Add(thread);
      forall x | x in lists && x != k
        ensures lists[x].Valid()
      {
        assert lists[x].elems == e[x] && old(lists[x].Valid());
        forall t: Thread | t in e[x]
          ensures t.next == old(t.next) && t.prev == old(t.prev)
        {
          ApartAt(e, x, k, t);
        }
      }
    }

    method AddBefore(k: Kind, point: Thread, thread: Thread, ghost i: nat)
      requires Valid() && (forall x :: x in lists ==> thread !in lists[x].elems)
      requires i < |lists[k].elems| && lists[k].elems[i] == point
      modifies lists[k], lists[k].elems`next, lists[k].elems`prev, thread`next, thread`prev
      ensures Valid() && Elems() == old(Elems())[k := Splice(old(Elems())[k], i, thread)]
    {
      hide Succ, Pred, At, NoRepeat, Apart, Footprint, Splice;
      ghost var e := Elems();
      AddBeforeTo(k, point, thread, i);
      SpliceMembers(e[k], i, thread);
      ApartAfter(e, k, Splice(e[k], i, thread), thread);
      HoldThese(e[k := Splice(e[k], i, thread)]);
    }

    /** That, and its effect on each of the lists. */
    method AddBeforeTo(k: Kind, point: Thread, thread: Thread, ghost i: nat)
      requires Valid() && (forall x :: x in lists ==> thread !in lists[x].elems)
      requires i < |lists[k].elems| && lists[k].elems[i] == point
      modifies lists[k], lists[k].elems`next, lists[k].elems`prev, thread`next, thread`prev
      ensures lists[k].Valid() && lists[k].elems == Splice(old(lists[k].elems), i, thread)
      ensures forall x :: x in lists && x != k ==> lists[x].Valid() && lists[x].elems == old(lists[x].elems)
    {
      hide Succ, Pred, At, NoRepeat, Apart, Footprint, Splice;
      ghost var e := Elems();
      lists[k].AddBefore(point, thread, i);
      forall x | x in lists && x != k
        ensures lists[x].Valid()
      {
        assert lists[x].elems == e[x] && old(lists[x].Valid());
        forall t: Thread | t in e[x]
          ensures t.next == old(t.next) && t.prev == old(t.prev)
        {
          ApartAt(e, x, k, t);
        }
      }
    }

    method Delete(k: Kind, thread: Thread)
      requires Valid() && thread in lists[k].elems
      modifies lists[k], lists[k].elems`next, lists[k].elems`prev
      ensures Valid() && Elems() == old(Elems())[k := Without(old(Elems())[k], thread)]
      ensures thread.next == null && thread.prev == null
    {
      hide Succ, Pred, At, NoRepeat, Apart, Footprint, Splice, Without;
      ghost var e := Elems();
      DeleteFrom(k, thread);
      ApartWithout(e, k, thread);
      HoldThese(e[k := Without(e[k], thread)]);
    }

    /** thread_trim_head: the first thread of list k is taken off, or there is none. */
    method TrimHead(k: Kind) returns (thread: Thread?)
      requires Valid()
      modifies lists[k], lists[k].elems`next, lists[k].elems`prev
      ensures Valid()
      ensures var s := old(Elems())[k];
              if s == [] then thread == null && Elems() == old(Elems())
              else thread == s[0] && Elems() == old(Elems())[k := s[1..]]
      ensures thread != null ==> thread.next == null && thread.prev == null
    {
      hide Succ, Pred, NoRepeat, Apart, Footprint, Splice;
      ghost var s := lists[k].elems;
      thread := lists[k].head;
      if thread != null {
        WithoutHead(lists[k], thread);
        Delete(k, thread);
      }
    }

    /** The deletion and its effect on each of the lists. */
    method DeleteFrom(k: Kind, thread: Thread)
      requires Valid() && thread in lists[k].elems
      modifies lists[k], lists[k].elems`next, lists[k].elems`prev
      ensures thread.next == null && thread.prev == null
      ensures lists[k].Valid() && lists[k].elems == Without(old(lists[k].elems), thread)
      ensures forall x :: x in lists && x != k ==> lists[x].Valid() && lists[x].elems == old(lists[x].elems)
    {
      hide Succ, Pred, At, NoRepeat, Apart, Footprint, Without;
      ghost var e := Elems();
      lists[k].Delete(thread);
      forall x | x in lists && x != k
        ensures lists[x].Valid()
      {
        assert lists[x].elems == e[x] && old(lists[x].Valid());
        forall t: Thread | t in e[x]
          ensures t.next == old(t.next) && t.prev == old(t.prev)
        {
          ApartAt(e, x, k, t);
        }
      }
    }
  }
}

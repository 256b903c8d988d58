/**
  What the operations of the scheduler of lib/thread.c do to its lists, thread by
  thread: who is where afterwards, in which order, and what has not moved.
 */
module SchedulerLaws {
  import opened Sequences
  import opened Timevals
  import opened ThreadPool
  import opened ThreadBatches
  import opened Threads

  /** An admission takes the longest unused thread, or a new one, and puts it at its place; nothing else moves. */
  lemma AdmitIs(st: State, item: Item, i: nat)
    requires Good(st, {}) && item.kind != Unused && i <= |st.lists[item.kind]|
    ensures var st', k := Admit(st, item, i), item.kind;
            var t := if st.lists[Unused] == [] then st.alloc else st.lists[Unused][0];
            && st'.pool == st.pool[t := item]
            && st'.alloc == (if st.lists[Unused] == [] then st.alloc + 1 else st.alloc)
            && st'.lists[k] == st.lists[k][..i] + [t] + st.lists[k][i..]
            && st'.lists[Unused] == (if st.lists[Unused] == [] then [] else st.lists[Unused][1..])
            && (forall x: Kind :: x != k && x != Unused ==> st'.lists[x] == st.lists[x])
            && st'.readfd == (if k == Read && item.u.Descriptor? then st.readfd + {item.u.fd} else st.readfd)
            && st'.writefd == (if k == Write && item.u.Descriptor? then st.writefd + {item.u.fd} else st.writefd)
  {
    hide Conserved, Watches, Ordered, Total;
    DrawGood(st, item);
  }

  /** A thread that is taken off its list leaves the order of the others, and goes to the end of the list it joins. */
  lemma MoveIs(st: State, t: nat, to: Kind) returns (i: nat)
    requires Good(st, {}) && t in st.pool && to != st.pool[t].kind
    ensures var st', k := Move(Cleared(st, t), t, to), st.pool[t].kind;
            && i < |st.lists[k]| && st.lists[k][i] == t
            && st'.lists[k] == st.lists[k][..i] + st.lists[k][i + 1..]
            && st'.lists[to] == st.lists[to] + [t]
            && (forall x: Kind :: x != k && x != to ==> st'.lists[x] == st.lists[x])
            && st'.pool == st.pool[t := st.pool[t].(kind := to)] && st'.alloc == st.alloc
            && st'.readfd == (if k == Read then st.readfd - {st.pool[t].u.fd} else st.readfd)
            && st'.writefd == (if k == Write then st.writefd - {st.pool[t].u.fd} else st.writefd)
  {
    hide Conserved, Watches, Ordered, Without, NoRepeat, Total;
    OnItsList(st, t);
    var k := st.pool[t].kind;
    i :| i < |st.lists[k]| && st.lists[k][i] == t;
    OnThatList(st, k, i);
    WithoutAt(st.lists[k], i);
  }

  /** The place of a new timer: after those due strictly earlier, before those due at the same time or later. */
  lemma SlotIs(pool: Pool, s: seq<nat>, i: nat, at: Timeval)
    requires Ordered(pool, s) && Slot(pool, s, i, at) && Normal(at)
    ensures i <= |s| && forall j :: 0 <= j < |s| ==>
      s[j] in pool && pool[s[j]].u.Sands? && (j < i <==> Micros(pool[s[j]].u.sands) < Micros(at))
  {
    hide Cmp;
    forall j | 0 <= j < |s|
      ensures j < i <==> Micros(pool[s[j]].u.sands) < Micros(at)
    {
      assert s[j] in s;
      CmpOrdersTime(at, pool[s[j]].u.sands);
      if i < j {
        assert s[i] in s;
        CmpOrdersTime(at, pool[s[i]].u.sands);
        CmpOrdersTime(pool[s[i]].u.sands, pool[s[j]].u.sands);
      }
    }
  }

  lemma {:induction false} PickedInOrder(s: seq<nat>, c: set<nat>)
    ensures PickedFrom(s, Only(s, c)) && PickedFrom(s, Except(s, c))
    decreases |s|
  {
    hide PickedFrom;
    if s == [] {
      NothingPicked(s);
    } else {
      var n := |s| - 1;
      SplitMembers(s[..n], c);
      PickedInOrder(s[..n], c);
      assert s == s[..n] + [s[n]];
      OneMorePicked(s[..n], Only(s[..n], c), s[n]);
      OneMorePicked(s[..n], Except(s[..n], c), s[n]);
      assert Only(s[..n], c) + [] == Only(s[..n], c) && Except(s[..n], c) + [] == Except(s[..n], c);
    }
  }

  /** Moving a set of threads off a list: they join the other list at its end. Both parts keep their order. */
  lemma MoveSetIs(st: State, k: Kind, to: Kind, c: set<nat>) returns (moved: seq<nat>)
    requires Six(st.lists) && k != to
    ensures var st' := MoveSet(st, k, to, c);
            && st'.lists.Keys == st.lists.Keys && st'.lists[to] == st.lists[to] + moved
            && (forall t :: t in moved <==> t in st.lists[k] && t in c)
            && (forall t :: t in st'.lists[k] <==> t in st.lists[k] && t !in c)
            && PickedFrom(st.lists[k], moved) && PickedFrom(st.lists[k], st'.lists[k])
            && (forall x: Kind :: x != k && x != to ==> st'.lists[x] == st.lists[x])
            && st'.pool.Keys == st.pool.Keys
            && (forall t :: t in st.pool ==> st'.pool[t] == if t in moved then st.pool[t].(kind := to) else st.pool[t])
            && st'.readfd == st.readfd && st'.writefd == st.writefd && st'.alloc == st.alloc
  {
    moved := Only(st.lists[k], c);
    SplitMembers(st.lists[k], c);
    PickedInOrder(st.lists[k], c);
    hide PickedFrom, Only, Except;
  }

  /** Reported descriptors: exactly the threads that watch them are appended to the ready list, in the order in which
      they were waiting; the others keep waiting in theirs, and no other list changes. */
  lemma PollIs(st: State, k: Kind, fds: set<nat>) returns (moved: seq<nat>)
    requires Good(st, {}) && (k == Read || k == Write)
    ensures Six(Poll(st, k, fds).lists) && Six(st.lists)
    ensures var st' := Poll(st, k, fds);
            && st'.lists[Ready] == st.lists[Ready] + moved
            && (forall t :: t in moved <==> t in st.lists[k] && t in st.pool && Watching(st.pool[t], fds))
            && (forall t :: t in st'.lists[k] <==> t in st.lists[k] && t !in moved)
            && PickedFrom(st.lists[k], moved) && PickedFrom(st.lists[k], st'.lists[k])
            && (forall x: Kind :: x != k && x != Ready ==> st'.lists[x] == st.lists[x])
            && st'.pool.Keys == st.pool.Keys
            && (forall t :: t in st.pool ==>
                  st'.pool[t] == if t in moved then st.pool[t].(kind := Ready) else st.pool[t])
            && st'.readfd == (if k == Read then st.readfd - fds else st.readfd)
            && st'.writefd == (if k == Write then st.writefd - fds else st.writefd)
  {
    hide Conserved, Watches, Ordered, MoveSet, PickedFrom, Total;
    moved := MoveSetIs(st, k, Ready, Hit(st, k, fds));
  }

  /** A thread waits for one of these descriptors. */
  predicate Watching(item: Item, fds: set<nat>) {
    item.u.Descriptor? && item.u.fd in fds
  }

  /** Cancelling by argument: exactly the events with it become unused, in their order; the others stay in theirs. */
  lemma CancelIs(st: State, arg: nat) returns (gone: seq<nat>)
    requires Good(st, {})
    ensures var st' := MoveSet(st, Event, Unused, set t | t in st.pool && st.pool[t].arg == arg);
            && Six(st'.lists) && Six(st.lists) && st'.lists[Unused] == st.lists[Unused] + gone
            && (forall t :: t in gone <==> t in st.lists[Event] && t in st.pool && st.pool[t].arg == arg)
            && (forall t :: t in st'.lists[Event] <==> t in st.lists[Event] && t !in gone)
            && PickedFrom(st.lists[Event], gone) && PickedFrom(st.lists[Event], st'.lists[Event])
            && (forall x: Kind :: x != Event && x != Unused ==> st'.lists[x] == st.lists[x])
            && st'.readfd == st.readfd && st'.writefd == st.writefd
  {
    hide Conserved, Watches, Ordered, MoveSet, PickedFrom, Total;
    gone := MoveSetIs(st, Event, Unused, set t | t in st.pool && st.pool[t].arg == arg);
  }

  /** The thread t is the first of a list that waits for one of these descriptors. */
  ghost predicate FirstWatching(st: State, k: Kind, fds: set<nat>, t: nat) {
    && Six(st.lists) && t in st.lists[k] && t in st.pool && Watching(st.pool[t], fds)
    && forall x :: x in st.lists[k] && x in st.pool && Watching(st.pool[x], fds) ==>
         x == t || Precedes(st.lists[k], t, x)
  }

  ghost predicate NoneWatching(st: State, k: Kind, fds: set<nat>) {
    && Six(st.lists)
    && forall x :: x in st.lists[k] && x in st.pool ==> !Watching(st.pool[x], fds)
  }

  /** The descriptors of select decide what runs: the longest waiting reader that was reported, and only if there is
      none the longest waiting writer; without either the turn ends. */
  lemma SelectedRuns(st: State, readable: set<nat>, writable: set<nat>, r: Fetch, st': State)
    requires Good(st, {}) && Six(st.lists) && st.lists[Ready] == [] && Polled(st, readable, writable, r, st')
    ensures if !NoneWatching(st, Read, readable) then r.Run? && FirstWatching(st, Read, readable, r.thread)
            else if !NoneWatching(st, Write, writable) then r.Run? && FirstWatching(st, Write, writable, r.thread)
            else r == Again
  {
    hide Conserved, Watches, Ordered, Poll, Precedes, PickedFrom, Total, Move;
    var a := Poll(st, Read, readable);
    var readers := PollIs(st, Read, readable);
    var writers := PollIs(a, Write, writable);
    var b := Poll(a, Write, writable);
    assert b.lists[Ready] == [] + readers + writers;
    if readers != [] {
      HeadWatches(st, Read, readable, readers);
      assert r.thread == readers[0];
    } else if writers != [] {
      HeadWatches(st, Write, writable, writers);
      assert r.thread == writers[0];
    }
  }

  lemma HeadWatches(st: State, k: Kind, fds: set<nat>, moved: seq<nat>)
    requires Six(st.lists) && moved != [] && PickedFrom(st.lists[k], moved)
    requires forall t :: t in moved <==> t in st.lists[k] && t in st.pool && Watching(st.pool[t], fds)
    ensures FirstWatching(st, k, fds, moved[0]) && !NoneWatching(st, k, fds)
  {
    hide Precedes;
    assert moved[0] in moved;
    forall x | x in moved
      ensures x == moved[0] || Precedes(st.lists[k], moved[0], x)
    {
      var j :| 0 <= j < |moved| && moved[j] == x;
    }
  }
}

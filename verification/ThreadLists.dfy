/** The intrusive doubly linked lists of lib/thread.c, each proved against the sequence it holds. */
module ThreadLists {
  import opened Sequences

  /** The link fields of a thread. */
  class Thread {
    var next: Thread?
    var prev: Thread?
  }

  /** The element at a position, or null beside the sequence. */
  ghost function At(s: seq<Thread>, i: int): Thread? {
    if 0 <= i < |s| then s[i] else null
  }

  /** The neighbours of an element; null beside the sequence. */
  ghost function Succ(s: seq<Thread>, t: Thread): Thread?
    requires t in s
  {
    var i :| 0 <= i < |s| && s[i] == t;
    At(s, i + 1)
  }

  ghost function Pred(s: seq<Thread>, t: Thread): Thread?
    requires t in s
  {
    var i :| 0 <= i < |s| && s[i] == t;
    At(s, i - 1)
  }

  lemma NeighboursAt(s: seq<Thread>, i: nat)
    requires NoRepeat(s) && i < |s|
    ensures Succ(s, s[i]) == At(s, i + 1) && Pred(s, s[i]) == At(s, i - 1)
  {
  }

  lemma SpliceNeighbours(s: seq<Thread>, i: nat, x: Thread, t: Thread)
    requires NoRepeat(s) && x !in s && i < |s| && t in s && t in Splice(s, i, x)
    ensures Succ(Splice(s, i, x), t) == if t == Pred(s, s[i]) then x else Succ(s, t)
    ensures Pred(Splice(s, i, x), t) == if t == s[i] then x else Pred(s, t)
  {
  }

  lemma SplicedItself(s: seq<Thread>, i: nat, x: Thread)
    requires NoRepeat(s) && x !in s && i < |s|
    ensures x in Splice(s, i, x)
    ensures Succ(Splice(s, i, x), x) == s[i] && Pred(Splice(s, i, x), x) == Pred(s, s[i])
  {
  }

  /** All of the above about a splice, in the form a list needs it. */
  lemma Spliced(s: seq<Thread>, i: nat, x: Thread)
    requires NoRepeat(s) && x !in s && i < |s|
    ensures NoRepeat(Splice(s, i, x))
    ensures Pred(s, s[i]) != null ==> Pred(s, s[i]) in s
    ensures At(Splice(s, i, x), 0) == if Pred(s, s[i]) == null then x else At(s, 0)
    ensures At(Splice(s, i, x), |s|) == At(s, |s| - 1)
    ensures forall t :: t in Splice(s, i, x) ==> t == x || t in s
    ensures forall t :: t in s ==>
      && t in Splice(s, i, x)
      && Succ(Splice(s, i, x), t) == (if t == Pred(s, s[i]) then x else Succ(s, t))
      && Pred(Splice(s, i, x), t) == (if t == s[i] then x else Pred(s, t))
    ensures x in Splice(s, i, x)
    ensures Succ(Splice(s, i, x), x) == s[i] && Pred(Splice(s, i, x), x) == Pred(s, s[i])
  {
    NoRepeatAfterSplice(s, i, x);
    NeighboursAt(s, i);
    SplicedItself(s, i, x);
    forall t | t in s
      ensures t in Splice(s, i, x)
        && Succ(Splice(s, i, x), t) == (if t == Pred(s, s[i]) then x else Succ(s, t))
        && Pred(Splice(s, i, x), t) == (if t == s[i] then x else Pred(s, t))
    {
      assert t in s[..i] || t in s[i..];
      SpliceNeighbours(s, i, x, t);
    }
  }

  /** Where the gap's neighbours and the two ends are after a cut. */
  lemma ExcisedEnds(s: seq<Thread>, i: nat)
    requires NoRepeat(s) && i < |s|
    ensures NoRepeat(Cut(s, i)) && Cut(s, i) == Without(s, s[i])
    ensures Pred(s, s[i]) != s[i] && Succ(s, s[i]) != s[i]
    ensures Pred(s, s[i]) != null ==> Pred(s, s[i]) in s
    ensures Succ(s, s[i]) != null ==> Succ(s, s[i]) in s
    ensures At(Cut(s, i), 0) == if Pred(s, s[i]) == null then Succ(s, s[i]) else At(s, 0)
    ensures At(Cut(s, i), |s| - 2) == if Succ(s, s[i]) == null then Pred(s, s[i]) else At(s, |s| - 1)
  {
    hide NoRepeat, Without, Succ, Pred;
    NoRepeatAfterCut(s, i);
    WithoutAt(s, i);
    NeighboursAt(s, i);
    NotItself(s, i);
  }

  lemma NotItself(s: seq<Thread>, i: nat)
    requires NoRepeat(s) && i < |s|
    ensures Pred(s, s[i]) == At(s, i - 1) != s[i] && Succ(s, s[i]) == At(s, i + 1) != s[i]
  {
    NeighboursAt(s, i);
  }

  lemma Excised(s: seq<Thread>, i: nat)
    requires NoRepeat(s) && i < |s|
    ensures forall t :: t in Cut(s, i) ==>
      && t in s && t != s[i]
      && Succ(Cut(s, i), t) == (if t == Pred(s, s[i]) then Succ(s, s[i]) else Succ(s, t))
      && Pred(Cut(s, i), t) == (if t == Succ(s, s[i]) then Pred(s, s[i]) else Pred(s, t))
  {
  }

  lemma Appended(s: seq<Thread>, x: Thread)
    requires NoRepeat(s) && x !in s
    ensures NoRepeat(s + [x])
    ensures forall t :: t in s ==>
      && Succ(s + [x], t) == (if t == At(s, |s| - 1) then x else Succ(s, t))
      && Pred(s + [x], t) == Pred(s, t)
    ensures Succ(s + [x], x) == null && Pred(s + [x], x) == At(s, |s| - 1)
  {
  }

  class ThreadList {
    var head: Thread?
    var tail: Thread?
    var count: nat
    ghost var elems: seq<Thread>

    /** Head, tail, count and every link are what the sequence says. */
    ghost predicate Valid()
      reads this, elems`next, elems`prev
    {
      && NoRepeat(elems)
      && count == |elems|
      && head == At(elems, 0)
      && tail == At(elems, |elems| - 1)
      && (forall t :: t in elems ==> t.next == Succ(elems, t) && t.prev == Pred(elems, t))
    }

    constructor ()
      ensures Valid() && elems == []
    {
      head, tail, count, elems := null, null, 0, [];
    }

    method Add(thread: Thread)
      requires Valid() && thread !in elems
      modifies this, elems`next, thread`next, thread`prev
      ensures Valid() && elems == old(elems) + [thread]
    {
      Appended(elems, thread);
      thread.next := null;
      thread.prev := tail;
      if tail != null {
        tail.next := thread;
      } else {
        head := thread;
      }
      tail := thread;
      count := count + 1;
      elems := elems + [thread];
    }

    /** The link part of insertion: only the two neighbours' links are redirected. */
    method Link(point: Thread, thread: Thread)
      requires thread !in elems && point in elems && (point.prev != null ==> point.prev in elems)
      modifies `head, elems`next, elems`prev, thread`next, thread`prev
      ensures thread.next == point && thread.prev == old(point.prev)
      ensures head == if old(point.prev) == null then thread else old(head)
      ensures forall t :: t in elems ==>
                && t.next == (if t == old(point.prev) then thread else old(t.next))
                && t.prev == (if t == point then thread else old(t.prev))
    {
      thread.next := point;
      thread.prev := point.prev;
      if point.prev != null {
        point.prev.next := thread;
      } else {
        head := thread;
      }
      point.prev := thread;
    }

    method AddBefore(point: Thread, thread: Thread, ghost i: nat)
      requires Valid() && thread !in elems && i < |elems| && elems[i] == point
      modifies this, elems`next, elems`prev, thread`next, thread`prev
      ensures Valid() && elems == Splice(old(elems), i, thread)
    {
      hide NoRepeat, Splice, Succ, Pred, At;
      ghost var was := elems;
      Spliced(was, i, thread);
      Link(point, thread);
      count := count + 1;
      elems := Splice(was, i, thread);
    }

    /** The link part of deletion: the neighbours are joined, the thread's own links cleared. */
    method Unlink(thread: Thread, ghost rest: seq<Thread>)
      requires thread in elems && thread.next != thread && thread.prev != thread
      requires thread.next != null ==> thread.next in elems
      requires thread.prev != null ==> thread.prev in elems
      requires forall t :: t in rest ==> t in elems && t != thread
      requires forall t :: t in rest ==> Succ(rest, t) == if t == thread.prev then thread.next else t.next
      requires forall t :: t in rest ==> Pred(rest, t) == if t == thread.next then thread.prev else t.prev
      modifies `head, `tail, elems`next, elems`prev
      ensures thread.next == null && thread.prev == null
      ensures head == if old(thread.prev) == null then old(thread.next) else old(head)
      ensures tail == if old(thread.next) == null then old(thread.prev) else old(tail)
      ensures forall t :: t in rest ==> t.next == Succ(rest, t)
      ensures forall t :: t in rest ==> t.prev == Pred(rest, t)
    {
      hide Succ, Pred;
      if thread.next != null {
        thread.next.prev := thread.prev;
      } else {
        tail := thread.prev;
      }
      if thread.prev != null {
        thread.prev.next := thread.next;
      } else {
        head := thread.next;
      }
      thread.next, thread.prev := null, null;
    }

    method Delete(thread: Thread)
      requires Valid() && thread in elems
      modifies this, elems`next, elems`prev
      ensures Valid() && elems == Without(old(elems), thread)
      ensures thread.next == null && thread.prev == null
    {
      hide Without, NoRepeat, Cut, Succ, Pred, At;
      ghost var i :| 0 <= i < |elems| && elems[i] == thread;
      ghost var was := elems;
      ExcisedEnds(was, i);
      Excised(was, i);
      Unlink(thread, Cut(was, i));
      count := count - 1;
      elems := Cut(was, i);
    }

    /** Takes the first element off, or gives null. */
    method TrimHead() returns (thread: Thread?)
      requires Valid()
      modifies this, elems`next, elems`prev
      ensures Valid()
      ensures thread == At(old(elems), 0)
      ensures elems == if thread == null then old(elems) else old(elems)[1..]
      ensures thread != null ==> thread.next == null && thread.prev == null
    {
      if head != null {
        thread := head;
        WithoutAt(elems, 0);
        Delete(head);
      } else {
        thread := null;
      }
    }
  }
}

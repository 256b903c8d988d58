/** The event scheduler of lib/thread.c. */
module Threads {
  import opened Timevals
  import opened Sequences
  import opened ThreadPool
  import opened ThreadBatches

  /** A thread drawn, filled and put on the list of its type. */
  ghost function Admit(st: State, item: Item, i: nat): State
    requires Good(st, {}) && item.kind != Unused && i <= |st.lists[item.kind]|
  {
    DrawGood(st, item);
    var t := Supplied(st);
    Watched(Enlist(Draw(st, item), t, i), t)
  }

  lemma AdmitGood(st: State, item: Item, i: nat)
    requires Good(st, {}) && item.kind != Unused && i <= |st.lists[item.kind]|
    requires match item.kind
      case Read => item.u.Descriptor? && item.u.fd !in st.readfd && i == |st.lists[Read]|
      case Write => item.u.Descriptor? && item.u.fd !in st.writefd && i == |st.lists[Write]|
      case Timer => item.u.Sands? && Normal(item.u.sands) && Slot(st.pool, st.lists[Timer], i, item.u.sands)
      case _ => true
    ensures Good(Admit(st, item, i), {})
  {
    DrawGood(st, item);
    SlotAfterDraw(st, item, i);
    EnlistGood(Draw(st, item), Supplied(st), i);
  }

  lemma SlotBeforeDraw(st: State, item: Item, i: nat)
    requires Good(st, {}) && item.u.Sands? && Ordered(Draw(st, item).pool, st.lists[Timer])
    requires Slot(Draw(st, item).pool, st.lists[Timer], i, item.u.sands)
    ensures Slot(st.pool, st.lists[Timer], i, item.u.sands)
  {
  }

  lemma SlotAfterDraw(st: State, item: Item, i: nat)
    requires Good(st, {})
    ensures Good(Draw(st, item), {Supplied(st)})
    ensures item.u.Sands? && Slot(st.pool, st.lists[Timer], i, item.u.sands) ==>
              Slot(Draw(st, item).pool, st.lists[Timer], i, item.u.sands)
    ensures Draw(st, item).lists[Timer] == st.lists[Timer]
  {
    DrawGood(st, item);
    var t := Supplied(st);
    assert Listed(Draw(st, item).pool, st.lists[Timer], Timer, {t});
  }

  /** The threads of a list whose descriptor is in a set. */
  ghost function Hit(st: State, k: Kind, fds: set<nat>): set<nat>
    requires Good(st, {})
  {
    set t | t in st.lists[k] && t in st.pool && st.pool[t].u.Descriptor? && st.pool[t].u.fd in fds
  }

  /** The threads of a watched list with a ready descriptor become ready, and those descriptors are cleared. */
  ghost function Poll(st: State, k: Kind, fds: set<nat>): State
    requires Good(st, {})
  {
    MoveSet(st, k, Ready, Hit(st, k, fds))
      .(readfd := if k == Read then st.readfd - fds else st.readfd,
        writefd := if k == Write then st.writefd - fds else st.writefd)
  }

  /** The descriptors of the first `n` threads of list `k` that are hit. */
  ghost function Gone(st: State, k: Kind, fds: set<nat>, n: nat): set<nat>
    requires Good(st, {}) && n <= |st.lists[k]|
  {
    set t | t in st.lists[k][..n] && t in Hit(st, k, fds) :: st.pool[t].u.fd
  }

  /** Halfway through the loop of thread_process_fd. */
  ghost predicate PollStage(cur: State, st: State, k: Kind, fds: set<nat>, n: nat)
    requires Good(st, {}) && n <= |st.lists[k]|
  {
    && Good(cur, {})
    && Reached(cur, st, k, Ready, Hit(st, k, fds), n)
    && cur.readfd == (if k == Read then st.readfd - Gone(st, k, fds, n) else st.readfd)
    && cur.writefd == (if k == Write then st.writefd - Gone(st, k, fds, n) else st.writefd)
  }

  lemma PollStart(st: State, k: Kind, fds: set<nat>)
    requires Good(st, {}) && (k == Read || k == Write)
    ensures PollStage(st, st, k, fds, 0)
  {
    PartialStart(st, k, Ready, Hit(st, k, fds));
  }

  lemma GoneNext(st: State, k: Kind, fds: set<nat>, n: nat)
    requires Good(st, {}) && n < |st.lists[k]|
    ensures var t := st.lists[k][n];
      Gone(st, k, fds, n + 1) == Gone(st, k, fds, n) + if t in Hit(st, k, fds) then {st.pool[t].u.fd} else {}
  {
    hide Conserved, Watches, Ordered;
    var s, t := st.lists[k], st.lists[k][n];
    assert s[..n + 1] == s[..n] + [t];
    hide Six, Good;
    var c, a, b := Hit(st, k, fds), Gone(st, k, fds, n), Gone(st, k, fds, n + 1);
    hide Hit;
    forall fd | fd in b
      ensures fd in a || (t in c && fd == st.pool[t].u.fd)
    {
      var x :| x in s[..n + 1] && x in c && fd == st.pool[x].u.fd;
      assert x in s[..n] || x == t;
    }
  }

  lemma HitWhen(st: State, k: Kind, fds: set<nat>, n: nat)
    requires Good(st, {}) && (k == Read || k == Write) && n < |st.lists[k]|
    ensures var t := st.lists[k][n];
      t in st.pool && st.pool[t].u.Descriptor? && (t in Hit(st, k, fds) <==> st.pool[t].u.fd in fds)
  {
  }

  lemma PollStep(cur: State, st: State, k: Kind, fds: set<nat>, n: nat)
    requires Good(st, {}) && (k == Read || k == Write) && n < |st.lists[k]| && PollStage(cur, st, k, fds, n)
    ensures var t := st.lists[k][n];
      && t in cur.pool && cur.pool[t].kind == k && cur.pool[t].u.Descriptor?
      && (t in Hit(st, k, fds) <==> cur.pool[t].u.fd in fds)
      && (if t in Hit(st, k, fds) then PollStage(Move(Cleared(cur, t), t, Ready), st, k, fds, n + 1)
          else PollStage(cur, st, k, fds, n + 1))
  {
    hide Conserved, Watches, Ordered, Partial, Hit, Gone;
    HitWhen(st, k, fds, n);
    NextReached(cur, st, k, Ready, Hit(st, k, fds), n);
    GoneNext(st, k, fds, n);
    hide Good, Reached, Six;
  }

  lemma PollEnd(cur: State, st: State, k: Kind, fds: set<nat>)
    requires Good(st, {}) && (k == Read || k == Write) && PollStage(cur, st, k, fds, |st.lists[k]|)
    ensures Good(cur, {}) && cur == Poll(st, k, fds)
  {
    hide Conserved, Ordered, Partial;
    var s := st.lists[k];
    PartialEnd(st, k, Ready, Hit(st, k, fds));
    assert s[..|s|] == s;
    var all := if k == Read then st.readfd else st.writefd;
    assert Watches(st.pool, s, all);
    forall fd | fd in all && fd in fds
      ensures fd in Gone(st, k, fds, |s|)
    {
      var t :| t in s && st.pool[t].u == Descriptor(fd);
      assert t in Hit(st, k, fds);
    }
    assert all - Gone(st, k, fds, |s|) == all - fds;
  }

  lemma CancelStep(st: State, c: set<nat>, arg: nat, n: nat)
    requires Good(st, {}) && n < |st.lists[Event]| && Good(Partial(st, Event, Unused, c, n), {})
    requires forall x :: x in st.pool ==> (x in c <==> st.pool[x].arg == arg)
    ensures var t := st.lists[Event][n];
            var cur, after := Partial(st, Event, Unused, c, n), Partial(st, Event, Unused, c, n + 1);
            && t in cur.pool && Good(after, {})
            && after == if cur.pool[t].arg == arg then Move(cur, t, Unused) else cur
  {
    hide Conserved, Watches, Ordered, Partial, Move;
    var t, cur := st.lists[Event][n], Partial(st, Event, Unused, c, n);
    PartialSame(st, Event, Unused, c, n);
    if t in c {
      PartialMove(st, Event, Unused, c, n);
      MoveGood(cur, t, Unused);
      assert Cleared(cur, t) == cur;
    } else {
      PartialSkip(st, Event, Unused, c, n);
    }
  }

  /** What a fetch hands to its caller: the thread as it was on its list. */
  datatype Fetch = Run(thread: nat, item: Item) | Again | Nothing

  /** How long select may wait. */
  datatype Wait = Forever | For(time: Timeval)

  const CAP := (SECOND_MICRO + 1) * SECOND_MICRO

  function Max(a: int, b: int): int {
    if a < b then b else a
  }

  /** A wait never goes past a deadline by more than ten microseconds, and is endless only without timers. */
  ghost predicate Awaits(st: State, now: Timeval, wait: Wait) {
    && Six(st.lists)
    && (wait == Forever <==> st.lists[Timer] == [])
    && (forall t :: t in st.lists[Timer] ==>
          && t in st.pool && st.pool[t].u.Sands? && wait.For?
          && Micros(wait.time) <= Max(Micros(st.pool[t].u.sands) - Micros(now), 10))
  }

  /** What select reported: a timeout or interruption, another error, or descriptors. */
  datatype Select = Idle | Failed | Descriptors(readable: set<nat>, writable: set<nat>)

  /** The first thread of a list, as a fetch would hand it out. */
  ghost function Head(st: State, k: Kind): (r: Fetch)
    requires Good(st, {}) && st.lists[k] != []
    ensures r.Run? && r.thread == st.lists[k][0] && r.thread in st.pool && r.item == st.pool[r.thread]
    ensures r.item.kind == k
    ensures k == Timer ==> r.item.u.Sands? && Normal(r.item.u.sands)
  {
    OnThatList(st, k, 0);
    Run(st.lists[k][0], st.pool[st.lists[k][0]])
  }

  /** What one turn of thread_fetch runs before it asks for descriptors: an event if there is one, else the
      first timer if it is due, else the first ready thread. */
  ghost function First(st: State, now: Timeval): Fetch
    requires Good(st, {})
  {
    if st.lists[Event] != [] then Head(st, Event)
    else if st.lists[Timer] != [] && Cmp(now, Head(st, Timer).item.u.sands) >= 0 then Head(st, Timer)
    else if st.lists[Ready] != [] then Head(st, Ready)
    else Again
  }

  /** Every pending timer lies in the future. */
  ghost predicate NoneDue(st: State, now: Timeval) {
    && Six(st.lists)
    && forall t :: t in st.lists[Timer] && t in st.pool && st.pool[t].u.Sands? ==>
         Micros(now) < Micros(st.pool[t].u.sands)
  }

  /** The four cases of a turn: an event, a due timer, a ready thread, and only then none of them. */
  lemma FirstIs(st: State, now: Timeval)
    requires Good(st, {}) && Normal(now)
    ensures forall k: Kind, t :: t in st.lists[k] ==> t in st.pool
    ensures st.lists[Event] != [] ==> First(st, now) == Run(st.lists[Event][0], st.pool[st.lists[Event][0]])
    ensures st.lists[Event] == [] && !NoneDue(st, now) ==>
      st.lists[Timer] != [] && First(st, now) == Run(st.lists[Timer][0], st.pool[st.lists[Timer][0]])
    ensures st.lists[Event] == [] && NoneDue(st, now) && st.lists[Ready] != [] ==>
      First(st, now) == Run(st.lists[Ready][0], st.pool[st.lists[Ready][0]])
    ensures First(st, now).Run? || First(st, now) == Again
    ensures First(st, now) == Again <==> st.lists[Event] == [] && NoneDue(st, now) && st.lists[Ready] == []
  {
    forall k: Kind, t | t in st.lists[k]
      ensures t in st.pool
    {
      assert Listed(st.pool, st.lists[k], k, {});
    }
    if st.lists[Timer] != [] {
      var head := Head(st, Timer);
      CmpOrdersTime(now, head.item.u.sands);
      assert st.lists[Timer][0] in st.lists[Timer];
      forall x | x in st.lists[Timer]
        ensures x in st.pool && st.pool[x].u.Sands? && Micros(head.item.u.sands) <= Micros(st.pool[x].u.sands)
      {
        HeadIsEarliest(st, x);
      }
    }
  }

  /** A timer is run only with no event pending and when it is due, and no pending timer is due earlier. */
  lemma RunsEarliest(st: State, now: Timeval, x: nat)
    requires Good(st, {}) && Normal(now) && First(st, now).Run? && First(st, now).item.kind == Timer
    requires x in st.lists[Timer]
    ensures st.lists[Event] == []
    ensures x in st.pool && st.pool[x].u.Sands?
    ensures Micros(First(st, now).item.u.sands) <= Micros(now)
    ensures Micros(First(st, now).item.u.sands) <= Micros(st.pool[x].u.sands)
  {
    HeadIsEarliest(st, x);
    CmpOrdersTime(now, First(st, now).item.u.sands);
  }

  lemma HeadIsEarliest(st: State, x: nat)
    requires Good(st, {}) && x in st.lists[Timer]
    ensures x in st.pool && st.pool[x].u.Sands?
    ensures Micros(Head(st, Timer).item.u.sands) <= Micros(st.pool[x].u.sands)
  {
  }

  lemma AllUnused(st: State)
    requires Good(st, {})
    ensures (forall k: Kind :: k != Unused ==> st.lists[k] == []) <==>
      (forall t :: t in st.pool ==> st.pool[t].kind == Unused)
  {
    forall k: Kind | st.lists[k] != []
      ensures st.lists[k][0] in st.pool && st.pool[st.lists[k][0]].kind == k
    {
      OnThatList(st, k, 0);
    }
  }

  /** As long as a timer is due or an event is pending, no ready thread and no descriptor is looked at. */
  lemma DueComesFirst(st: State, now: Timeval, x: nat)
    requires Good(st, {}) && Normal(now) && x in st.lists[Timer]
    requires x in st.pool && st.pool[x].u.Sands? && Micros(st.pool[x].u.sands) <= Micros(now)
    ensures First(st, now).Run? && First(st, now).item.kind in {Event, Timer}
  {
  }

  /** After select reported descriptors: reads become ready before writes, and the first ready thread runs. */
  ghost predicate Polled(st: State, readable: set<nat>, writable: set<nat>, r: Fetch, st': State)
    requires Good(st, {})
  {
    var a := Poll(st, Read, readable);
    && Good(a, {})
    && var b := Poll(a, Write, writable);
      && Good(b, {})
      && if b.lists[Ready] == [] then r == Again && st' == b
         else r == Head(b, Ready) && r.thread in b.pool && st' == Move(b, r.thread, Unused)
  }

  class ThreadMaster {
    var pool: Pool
    var lists: Lists
    var readfd: set<nat>
    var writefd: set<nat>
    var alloc: nat

    ghost function S(): State
      reads this
    {
      State(pool, lists, readfd, writefd, alloc)
    }

    ghost predicate Valid()
      reads this
    {
      Good(S(), {})
    }

    constructor ()
      ensures Valid() && S() == INITIAL
    {
      pool, lists, readfd, writefd, alloc := map[], NO_LISTS, {}, {}, 0;
      InitialGood();
    }

    /** thread_get, with the payload its caller stores next. */
    method ThreadGet(kind: Kind, func: nat, arg: nat, u: Payload) returns (t: nat)
      requires Valid()
      modifies `pool, `lists, `alloc
      ensures t == Supplied(old(S())) && t in pool && pool[t] == Item(kind, func, arg, u)
      ensures S() == Draw(old(S()), Item(kind, func, arg, u)) && Good(S(), {t})
    {
      DrawGood(S(), Item(kind, func, arg, u));
      assert Six(lists) && Unused in lists;
      hide Good, Six;
      if lists[Unused] != [] {
        t := lists[Unused][0];
        lists := lists[Unused := lists[Unused][1..]];
      } else {
        t := alloc;
        alloc := alloc + 1;
      }
      pool := pool[t := Item(kind, func, arg, u)];
    }

    method AddRead(func: nat, arg: nat, fd: nat) returns (ok: bool, t: nat)
      requires Valid()
      modifies this
      ensures Valid() && ok == (fd !in old(readfd))
      ensures !ok ==> S() == old(S())
      ensures ok ==> t == Supplied(old(S()))
      ensures ok ==> S() == Admit(old(S()), Item(Read, func, arg, Descriptor(fd)), |old(lists[Read])|)
    {
      if fd in readfd {
        return false, 0;
      }
      AdmitGood(S(), Item(Read, func, arg, Descriptor(fd)), |lists[Read]|);
      DrawGood(S(), Item(Read, func, arg, Descriptor(fd)));
      hide Conserved, Watches, Ordered, Draw, Splice;
      t := ThreadGet(Read, func, arg, Descriptor(fd));
      readfd := readfd + {fd};
      AppendIsSplice(lists[Read], t);
      lists := lists[Read := lists[Read] + [t]];
      ok := true;
    }

    method AddWrite(func: nat, arg: nat, fd: nat) returns (ok: bool, t: nat)
      requires Valid()
      modifies this
      ensures Valid() && ok == (fd !in old(writefd))
      ensures !ok ==> S() == old(S())
      ensures ok ==> t == Supplied(old(S()))
      ensures ok ==> S() == Admit(old(S()), Item(Write, func, arg, Descriptor(fd)), |old(lists[Write])|)
    {
      if fd in writefd {
        return false, 0;
      }
      AdmitGood(S(), Item(Write, func, arg, Descriptor(fd)), |lists[Write]|);
      DrawGood(S(), Item(Write, func, arg, Descriptor(fd)));
      hide Conserved, Watches, Ordered, Draw, Splice;
      t := ThreadGet(Write, func, arg, Descriptor(fd));
      writefd := writefd + {fd};
      AppendIsSplice(lists[Write], t);
      lists := lists[Write := lists[Write] + [t]];
      ok := true;
    }

    method AddEvent(func: nat, arg: nat, val: int) returns (t: nat)
      requires Valid()
      modifies this
      ensures Valid() && t == Supplied(old(S()))
      ensures S() == Admit(old(S()), Item(Event, func, arg, Value(val)), |old(lists[Event])|)
    {
      AdmitGood(S(), Item(Event, func, arg, Value(val)), |lists[Event]|);
      DrawGood(S(), Item(Event, func, arg, Value(val)));
      hide Conserved, Watches, Ordered, Draw, Splice;
      t := ThreadGet(Event, func, arg, Value(val));
      AppendIsSplice(lists[Event], t);
      lists := lists[Event := lists[Event] + [t]];
    }

    /** The search of thread_add_timer: past every timer that is due strictly earlier. */
    method FindSlot(at: Timeval) returns (i: nat)
      requires Six(lists) && Ordered(pool, lists[Timer])
      ensures Slot(pool, lists[Timer], i, at)
    {
      i := 0;
      while i < |lists[Timer]| && Cmp(at, pool[lists[Timer][i]].u.sands) > 0
        invariant i <= |lists[Timer]|
        invariant forall j :: 0 <= j < i ==> Cmp(at, pool[lists[Timer][j]].u.sands) > 0
      {
        i := i + 1;
      }
    }

    /** The deadline is the clock reading plus the delay, to the microsecond; the timers stay sorted. */
    method AddTimer(func: nat, arg: nat, now: Timeval, delay: nat) returns (t: nat, ghost i: nat)
      requires Valid() && Normal(now)
      modifies this
      ensures Valid() && t == Supplied(old(S())) && t in pool
      ensures pool[t].u.Sands? && Micros(pool[t].u.sands) == Micros(now) + delay
      ensures Slot(old(pool), old(lists[Timer]), i, pool[t].u.sands)
      ensures S() == Admit(old(S()), Item(Timer, func, arg, pool[t].u), i)
    {
      hide Conserved, Watches, Ordered, Draw;
      ghost var st := S();
      var at := Deadline(now, delay);
      var item := Item(Timer, func, arg, Sands(at));
      DrawGood(S(), item);
      SlotAfterDraw(S(), item, 0);
      t := ThreadGet(Timer, func, arg, Sands(at));
      var p := FindSlot(at);
      i := p;
      SlotBeforeDraw(st, item, i);
      AdmitGood(st, item, i);
      lists := lists[Timer := lists[Timer][..p] + [t] + lists[Timer][p..]];
    }

    /** A thread leaves its list for the end of another, and its type follows. */
    method Shift(t: nat, to: Kind)
      requires Six(lists) && t in pool
      modifies `pool, `lists
      ensures S() == Move(old(S()), t, to)
    {
      var k := pool[t].kind;
      lists := lists[k := Without(lists[k], t)];
      pool := pool[t := pool[t].(kind := to)];
      assert pool[t].kind == to;
      lists := lists[to := lists[to] + [t]];
    }

    /** Clears a watching thread's descriptor, which is set. */
    method ClearFd(t: nat)
      requires Valid() && t in pool
      modifies `readfd, `writefd
      ensures S() == Cleared(old(S()), t)
    {
      OnItsList(S(), t);
      hide Good;
      if pool[t].kind == Read {
        assert pool[t].u.fd in readfd;
        readfd := readfd - {pool[t].u.fd};
      } else if pool[t].kind == Write {
        assert pool[t].u.fd in writefd;
        writefd := writefd - {pool[t].u.fd};
      }
    }

    method Cancel(t: nat)
      requires Valid() && t in pool
      modifies this
      ensures Valid()
      ensures S() == if old(pool[t].kind) == Unused then old(S()) else Move(Cleared(old(S()), t), t, Unused)
    {
      hide Conserved, Watches, Ordered, Move, Cleared;
      if pool[t].kind == Unused {
        return;
      }
      MoveGood(S(), t, Unused);
      ClearFd(t);
      Shift(t, Unused);
    }

    /** One turn of the loop of thread_cancel_event. */
    method CancelNext(t: nat, arg: nat, ghost st: State, ghost c: set<nat>, ghost n: nat)
      requires Good(st, {}) && n < |st.lists[Event]| && t == st.lists[Event][n]
      requires forall x :: x in st.pool ==> (x in c <==> st.pool[x].arg == arg)
      requires Valid() && S() == Partial(st, Event, Unused, c, n)
      modifies `pool, `lists
      ensures Valid() && S() == Partial(st, Event, Unused, c, n + 1)
    {
      hide Conserved, Watches, Ordered, Partial, Move;
      CancelStep(st, c, arg, n);
      if pool[t].arg == arg {
        Shift(t, Unused);
      }
    }

    /** Cancels every pending event with the argument, in list order. */
    method CancelEvent(arg: nat)
      requires Valid()
      modifies this
      ensures Valid()
      ensures S() == MoveSet(old(S()), Event, Unused, set t | t in old(pool) && old(pool)[t].arg == arg)
    {
      hide Conserved, Watches, Ordered, Partial, MoveSet;
      ghost var st := S();
      ghost var c := set t | t in pool && pool[t].arg == arg;
      var rest := lists[Event];
      ghost var n := 0;
      PartialStart(st, Event, Unused, c);
      PartialEnd(st, Event, Unused, c);
      while rest != []
        invariant n <= |st.lists[Event]| && rest == st.lists[Event][n..]
        invariant Valid() && S() == Partial(st, Event, Unused, c, n)
      {
        CancelNext(rest[0], arg, st, c, n);
        rest := rest[1..];
        n := n + 1;
      }
    }

    /** One turn of the loop of thread_process_fd. */
    method PollNext(k: Kind, t: nat, fds: set<nat>, ghost st: State, ghost n: nat) returns (hit: bool)
      requires Good(st, {}) && (k == Read || k == Write) && n < |st.lists[k]| && t == st.lists[k][n]
      requires PollStage(S(), st, k, fds, n)
      modifies this
      ensures PollStage(S(), st, k, fds, n + 1) && hit == (t in Hit(st, k, fds))
    {
      hide Conserved, Watches, Ordered, Move, Cleared, Hit, Gone, Reached;
      PollStep(S(), st, k, fds, n);
      hide PollStage;
      hit := pool[t].u.fd in fds;
      if hit {
        ClearFd(t);
        Shift(t, Ready);
      }
    }

    method ProcessFd(k: Kind, fds: set<nat>) returns (ready: nat)
      requires Valid() && (k == Read || k == Write)
      modifies this
      ensures Valid() && S() == Poll(old(S()), k, fds)
      ensures ready == |Only(old(lists[k]), Hit(old(S()), k, fds))|
    {
      hide Conserved, Watches, Ordered, Hit, Gone, Poll, Reached;
      ghost var st := S();
      var rest := lists[k];
      ghost var n := 0;
      ready := 0;
      PollStart(st, k, fds);
      hide PollStage;
      while rest != []
        invariant n <= |st.lists[k]| && rest == st.lists[k][n..]
        invariant PollStage(S(), st, k, fds, n)
        invariant ready == |Only(st.lists[k][..n], Hit(st, k, fds))|
      {
        NextSplit(st.lists[k], Hit(st, k, fds), n);
        var hit := PollNext(k, rest[0], fds, st, n);
        if hit {
          ready := ready + 1;
        }
        rest := rest[1..];
        n := n + 1;
      }
      PollEnd(S(), st, k, fds);
      assert st.lists[k][..n] == st.lists[k];
    }

    /** The head timer's remaining time: exact up to the cap of timeval_adjust, ten microseconds once it has
        passed, and so never past the earliest deadline by more. */
    method TimerWait(now: Timeval) returns (wait: Wait)
      requires Valid() && Normal(now)
      ensures Awaits(S(), now, wait)
      ensures lists[Timer] != [] && Micros(Head(S(), Timer).item.u.sands) < Micros(now) ==> Micros(wait.time) == 10
      ensures lists[Timer] != [] && 0 <= Micros(Head(S(), Timer).item.u.sands) - Micros(now) < CAP ==>
                Micros(wait.time) == Micros(Head(S(), Timer).item.u.sands) - Micros(now)
    {
      if lists[Timer] == [] {
        return Forever;
      }
      ghost var head := Head(S(), Timer);
      var least := Subtract(pool[lists[Timer][0]].u.sands, now);
      if least.sec < 0 {
        least := Timeval(0, 10);
      }
      wait := For(least);
      forall t | t in lists[Timer]
        ensures t in pool && pool[t].u.Sands?
        ensures Micros(head.item.u.sands) <= Micros(pool[t].u.sands)
      {
        HeadIsEarliest(S(), t);
      }
    }

    /** thread_fetch returns at once exactly when every thread is unused. */
    method NothingToDo() returns (idle: bool)
      requires Valid()
      ensures idle <==> forall t :: t in pool ==> pool[t].kind == Unused
    {
      idle := lists[Event] == [] && lists[Read] == [] && lists[Ready] == [] && lists[Timer] == [] && lists[Write] == [];
      AllUnused(S());
    }

    /** A thread leaves its list and is handed out as it was: thread_run. */
    method Dispatch(t: nat) returns (r: Fetch)
      requires Valid() && t in pool
      requires pool[t].kind != Read && pool[t].kind != Write && pool[t].kind != Unused
      modifies `pool, `lists
      ensures Valid() && r == Run(t, old(pool[t])) && S() == Move(old(S()), t, Unused)
    {
      MoveGood(S(), t, Unused);
      assert Cleared(S(), t) == S();
      hide Conserved, Watches, Ordered, Move;
      r := Run(t, pool[t]);
      Shift(t, Unused);
    }

    /** The scan of thread_fetch over the timers. */
    method FindDue(now: Timeval) returns (i: nat)
      requires Valid()
      ensures i == if lists[Timer] != [] && Cmp(now, Head(S(), Timer).item.u.sands) >= 0 then 0 else |lists[Timer]|
    {
      i := 0;
      ghost var st := S();
      assert Ordered(pool, lists[Timer]);
      hide Conserved, Watches;
      while i < |lists[Timer]| && Cmp(now, pool[lists[Timer][i]].u.sands) < 0
        invariant i <= |lists[Timer]|
        invariant i > 0 ==> Cmp(now, Head(st, Timer).item.u.sands) < 0
      {
        i := i + 1;
      }
    }

    /** One turn of the loop of thread_fetch; `select` is what the system call will report. */
    method FetchPass(now: Timeval, later: Timeval, select: Select) returns (r: Fetch, wait: Wait)
      requires Valid() && Normal(now) && Normal(later)
      modifies this
      ensures Valid()
      ensures First(old(S()), now).Run? ==>
                r == First(old(S()), now) && S() == Move(old(S()), r.thread, Unused)
      ensures forall k: Kind :: k in old(lists) && forall t :: t in old(lists)[k] ==> t in old(pool)
      ensures old(lists)[Event] != [] ==> r == Run(old(lists)[Event][0], old(pool)[old(lists)[Event][0]])
      ensures old(lists)[Event] == [] && !NoneDue(old(S()), now) ==>
                old(lists)[Timer] != [] && r == Run(old(lists)[Timer][0], old(pool)[old(lists)[Timer][0]])
      ensures old(lists)[Event] == [] && NoneDue(old(S()), now) && old(lists)[Ready] != [] ==>
                r == Run(old(lists)[Ready][0], old(pool)[old(lists)[Ready][0]])
      ensures !r.Run? ==> old(lists)[Event] == [] && NoneDue(old(S()), now) && old(lists)[Ready] == []
      ensures First(old(S()), now) == Again ==> Awaits(old(S()), later, wait)
      ensures First(old(S()), now) == Again ==> select.Idle? ==> r == Again && S() == old(S())
      ensures First(old(S()), now) == Again ==> select.Failed? ==> r == Nothing && S() == old(S())
      ensures First(old(S()), now) == Again ==> select.Descriptors? ==>
                Polled(old(S()), select.readable, select.writable, r, S())
    {
      hide Conserved, Watches, Ordered, Move, Poll, NoneDue;
      wait := Forever;
      FirstIs(S(), now);
      if lists[Event] != [] {
        ghost var f := Head(S(), Event);
        r := Dispatch(lists[Event][0]);
        return;
      }
      var i := FindDue(now);
      if i < |lists[Timer]| {
        ghost var f := Head(S(), Timer);
        r := Dispatch(lists[Timer][i]);
        return;
      }
      if lists[Ready] != [] {
        ghost var f := Head(S(), Ready);
        r := Dispatch(lists[Ready][0]);
        return;
      }
      wait := TimerWait(later);
      match select {
        case Idle =>
          r := Again;
        case Failed =>
          r := Nothing;
        case Descriptors(readable, writable) =>
          r := RunSelected(readable, writable);
      }
    }

    /** The end of that turn, with descriptors ready. */
    method RunSelected(readable: set<nat>, writable: set<nat>) returns (r: Fetch)
      requires Valid()
      modifies this
      ensures Valid() && Polled(old(S()), readable, writable, r, S())
    {
      hide Conserved, Watches, Ordered, Move, Poll;
      var a := ProcessFd(Read, readable);
      var b := ProcessFd(Write, writable);
      if lists[Ready] != [] {
        ghost var f := Head(S(), Ready);
        r := Dispatch(lists[Ready][0]);
      } else {
        r := Again;
      }
    }
  }
}

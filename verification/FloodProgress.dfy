/**
  Flooding makes progress: each packet that is sent, processed and acknowledged takes
  the head of the queue across, and with nothing new to send the queue is empty after
  as many packets as it takes at five advertisements each.
 */
module FloodProgress {
  import opened LinkStates
  import opened Sequences
  import opened ReliableFlood
  import F = FloodLink

  /** The send timer fires, the packet arrives, and its acknowledgement arrives. */
  function OneRound(c: Channel): Channel {
    var no := |c.sent| + 1;
    Handle(Handle(Handle(c, SendTimer), Data(no)), Ack(no))
  }

  function Rounds(c: Channel, n: nat): Channel
    decreases n
  {
    if n == 0 then c else Rounds(OneRound(c), n - 1)
  }

  /** A round takes the first five advertisements across, or all if there are fewer, and leaves the interface ready
      exactly if that was all. */
  lemma RoundIs(c: Channel)
    requires Inv(c) && c.f.phase == F.Busy
    ensures var c', q := OneRound(c), c.f.queue;
            var m := if |q| < 5 then |q| else 5;
            && Inv(c') && m > 0 && c'.f.queue == q[m..] && c'.taken == c.taken && c'.base == c.base
            && c'.sent == c.sent + [q[..m]] && c'.log == c.log + [|c.sent| + 1]
            && c'.f.phase == (if |q| <= 5 then F.Ready else F.Busy)
  {
    hide NothingLost, EarlierProcessed, InOrder;
    var no := |c.sent| + 1;
    HandleKeeps(c, SendTimer);
    HandleKeeps(Handle(c, SendTimer), Data(no));
    HandleKeeps(Handle(Handle(c, SendTimer), Data(no)), Ack(no));
  }

  /** How many packets a queue of that length takes. */
  function PacketsFor(n: nat): nat {
    (n + 4) / 5
  }

  /** From c to c' packets carrying exactly q, in order, have been sent and processed, and nothing new was taken. */
  ghost predicate Crossed(c: Channel, c': Channel, q: seq<Lsa>, packets: nat) {
    && c'.taken == c.taken && c'.base == c.base
    && |c'.sent| == |c.sent| + packets && c.sent <= c'.sent && Concat(c'.sent[|c.sent|..]) == q
    && (forall p :: |c.sent| < p <= |c'.sent| ==> p in c'.log)
    && (forall p :: p in c.log ==> p in c'.log)
  }

  lemma NothingCrossed(c: Channel)
    ensures Crossed(c, c, [], 0)
  {
    assert c.sent[|c.sent|..] == [];
  }

  lemma CrossedFirst(c: Channel, c1: Channel, c': Channel, x: seq<Lsa>, q: seq<Lsa>, packets: nat)
    requires Crossed(c1, c', q, packets) && c1.taken == c.taken && c1.base == c.base
    requires c1.sent == c.sent + [x] && c1.log == c.log + [|c.sent| + 1]
    ensures Crossed(c, c', x + q, packets + 1)
  {
    var n := |c.sent|;
    assert c'.sent[n] == c1.sent[n] == x;
    FirstPart(c'.sent, n);
    assert n + 1 in c1.log;
    assert c.sent == c1.sent[..n] && c1.sent == c'.sent[..n + 1];
  }

  /**
    From any reachable state that has something queued, that many rounds leave the
    interface ready with its queue empty; the new packets carry exactly what was
    queued, in order, and the peer has processed each of them.
   */
  lemma {:induction false} QueueDrains(c: Channel)
    requires Inv(c) && (c.f.phase == F.Busy || c.f.phase == F.Ready)
    ensures var c' := Rounds(c, PacketsFor(|c.f.queue|));
            && Inv(c') && c'.f.phase == F.Ready && c'.f.queue == []
            && Crossed(c, c', c.f.queue, PacketsFor(|c.f.queue|))
    decreases |c.f.queue|
  {
    hide NothingLost, EarlierProcessed, InOrder, OneRound, Crossed, Concat;
    var q := c.f.queue;
    if q == [] {
      NothingCrossed(c);
    } else {
      var c1 := OneRound(c);
      RoundIs(c);
      QueueDrains(c1);
      var x := q[..if |q| < 5 then |q| else 5];
      assert q == x + c1.f.queue;
      assert PacketsFor(|q|) == PacketsFor(|c1.f.queue|) + 1;
      CrossedFirst(c, c1, Rounds(c1, PacketsFor(|c1.f.queue|)), x, c1.f.queue, PacketsFor(|c1.f.queue|));
    }
  }

  lemma {:induction false} ConcatCons<T>(x: seq<T>, parts: seq<seq<T>>)
    ensures Concat([x] + parts) == x + Concat(parts)
    decreases |parts|
  {
    if parts == [] {
      assert [x] + parts == [x] && [x][..0] == [];
    } else {
      var n := |parts| - 1;
      ConcatCons(x, parts[..n]);
      assert ([x] + parts)[..n + 1] == [x] + parts[..n];
    }
  }

  lemma FirstPart(sent: seq<seq<Lsa>>, n: nat)
    requires n < |sent|
    ensures Concat(sent[n..]) == sent[n] + Concat(sent[n + 1..])
  {
    assert sent[n..] == [sent[n]] + sent[n + 1..];
    ConcatCons(sent[n], sent[n + 1..]);
  }

  /** With a packet outstanding, its arrival and its acknowledgement come first. */
  lemma AwaitedAckIs(c: Channel)
    requires Inv(c) && c.f.phase == F.AckWaiting
    ensures var c' := Handle(Handle(c, Data(|c.sent|)), Ack(|c.sent|));
            && Inv(c') && c'.f.queue == c.f.queue && c'.sent == c.sent && c'.taken == c.taken && c'.base == c.base
            && |c.sent| in c'.log && (forall p :: p in c.log ==> p in c'.log)
            && c'.f.phase == (if c.f.queue == [] then F.Ready else F.Busy)
  {
    hide NothingLost, EarlierProcessed, InOrder;
    HandleKeeps(c, Data(|c.sent|));
    HandleKeeps(Handle(c, Data(|c.sent|)), Ack(|c.sent|));
  }

  /**
    So from any state of a running session everything taken can still get across:
    there is a next state, without new advertisements, in which the interface is
    ready and the packets processed by the peer carry, in order, all that was taken.
   */
  lemma AllCanCross(evs: seq<Event>) returns (c': Channel)
    requires Exec(IDLE, evs).f.phase != F.Terminated
    ensures var c := Exec(IDLE, evs);
            var c1 := if c.f.phase == F.AckWaiting then Handle(Handle(c, Data(|c.sent|)), Ack(|c.sent|)) else c;
            && c' == Rounds(c1, PacketsFor(|c.f.queue|))
            && c'.f.phase == F.Ready && c'.taken == c.taken && c'.base == c.base <= |c'.sent|
            && Concat(c'.sent[c'.base..]) == c.taken
            && (forall p :: c'.base < p <= |c'.sent| ==> p in c'.log)
  {
    hide InOrder;
    ExecKeeps(evs);
    var c := Exec(IDLE, evs);
    var c1 := c;
    if c.f.phase == F.AckWaiting {
      AwaitedAckIs(c);
      c1 := Handle(Handle(c, Data(|c.sent|)), Ack(|c.sent|));
    }
    QueueDrains(c1);
    c' := Rounds(c1, PacketsFor(|c.f.queue|));
    assert forall p :: c'.base < p <= |c1.sent| ==> p in c1.log;
    assert Concat(c'.sent[c'.base..]) + [] == Concat(c'.sent[c'.base..]);
  }
}

/**
  Flooding from one interface to its peer over a channel that loses, duplicates
  and reorders, across any number of starts and terminations.
 */
module ReliableFlood {
  import opened LinkStates
  import opened Sequences
  import F = FloodLink

  /**
    `sent[n - 1]` is the payload of packet n; any packet sent may arrive at any time,
    any number of times. `log` lists the packets the peer has processed, in order,
    and `acks` the numbers it has acknowledged. `taken` lists what was put into the
    queue since the last start, which found the packet counter at `base`.
   */
  datatype Channel = Channel(f: F.Flood, sent: seq<seq<Lsa>>, log: seq<nat>, acks: set<nat>, base: nat, taken: seq<Lsa>)

  const IDLE := Channel(F.INITIAL, [], [], {}, 0, [])

  datatype Event =
    | Add(l: Lsa)
    | SendTimer
    | AckTimer
    | Data(no: nat)
    | Ack(no: nat)
    | Start
    | Stop

  /** One event; events that cannot happen in the state change nothing. */
  function Handle(c: Channel, ev: Event): Channel {
    match ev
    case Add(l) =>
      c.(f := F.Enqueue(c.f, l), taken := if c.f.phase == F.Terminated then c.taken else c.taken + [l])
    case SendTimer =>
      if c.f.sndArmed then c.(f := F.SendLsa(c.f), sent := c.sent + [F.SendLsa(c.f).buf]) else c
    case AckTimer => c
    case Data(no) =>
      if 1 <= no <= |c.sent| then c.(log := c.log + [no], acks := c.acks + {no}) else c
    case Ack(no) =>
      if no in c.acks then c.(f := F.AckReceived(c.f, no)) else c
    case Start => c.(f := F.Start(c.f), base := c.f.pkgNo, taken := [])
    case Stop => c.(f := F.Stop(c.f))
  }

  function Exec(c: Channel, evs: seq<Event>): Channel
    decreases |evs|
  {
    if evs == [] then c else Handle(Exec(c, evs[..|evs| - 1]), evs[|evs| - 1])
  }

  /** Counters and acknowledgements: a number is acknowledged only after its packet was processed. */
  predicate Consistent(c: Channel) {
    && F.Valid(c.f)
    && |c.sent| == c.f.pkgNo && c.base <= c.f.pkgNo
    && (forall n :: n in c.acks ==> n in c.log)
    && (forall i :: 0 <= i < |c.log| ==> 1 <= c.log[i] <= |c.sent|)
    && (c.f.phase == F.AckWaiting ==> c.base < |c.sent| && c.sent[|c.sent| - 1] == c.f.buf)
  }

  /** Everything taken since the start is, in order, in the packets sent since then followed by the queue. */
  predicate NothingLost(c: Channel)
    requires Consistent(c)
  {
    c.f.phase != F.Terminated ==> c.taken == Concat(c.sent[c.base..]) + c.f.queue
  }

  /** All packets of the session but an unacknowledged last one have been processed. */
  predicate EarlierProcessed(c: Channel)
    requires Consistent(c)
  {
    c.f.phase != F.Terminated ==>
      forall n :: c.base < n <= |c.sent| && !(n == |c.sent| && c.f.phase == F.AckWaiting) ==> n in c.log
  }

  /** A packet of the session is first processed after all earlier ones of it. */
  predicate InOrder(c: Channel) {
    c.f.phase != F.Terminated ==>
      forall i, m :: 0 <= i < |c.log| && c.base < m < c.log[i] ==> m in c.log[..i]
  }

  predicate Inv(c: Channel) {
    Consistent(c) && NothingLost(c) && EarlierProcessed(c) && InOrder(c)
  }

  lemma ConsistentKept(c: Channel, ev: Event)
    requires Inv(c)
    ensures Consistent(Handle(c, ev))
  {
  }

  lemma LossKept(c: Channel, ev: Event)
    requires Inv(c)
    ensures Consistent(Handle(c, ev)) && NothingLost(Handle(c, ev))
  {
    ConsistentKept(c, ev);
    var c' := Handle(c, ev);
    if ev.SendTimer? && c.f.sndArmed {
      assert c'.sent[c'.base..] == c.sent[c.base..] + [c'.f.buf];
      assert c'.sent[c'.base..][..|c'.sent[c'.base..]| - 1] == c.sent[c.base..];
      assert c.f.queue == c'.f.buf + c'.f.queue;
    }
  }

  lemma OrderKept(c: Channel, ev: Event)
    requires Inv(c)
    ensures Consistent(Handle(c, ev)) && EarlierProcessed(Handle(c, ev)) && InOrder(Handle(c, ev))
  {
    ConsistentKept(c, ev);
    var c' := Handle(c, ev);
    if ev.Data? && 1 <= ev.no <= |c.sent| {
      forall i, m | 0 <= i < |c'.log| && c'.base < m < c'.log[i] && c'.f.phase != F.Terminated
        ensures m in c'.log[..i]
      {
        if i < |c.log| {
          assert c'.log[..i] == c.log[..i];
        } else {
          assert c'.log[..i] == c.log;
        }
      }
    }
  }

  lemma {:induction false} ExecKeeps(evs: seq<Event>)
    ensures Inv(Exec(IDLE, evs))
    decreases |evs|
  {
    if evs == [] {
    } else {
      hide Inv;
      var earlier := evs[..|evs| - 1];
      ExecKeeps(earlier);
      HandleKeeps(Exec(IDLE, earlier), evs[|evs| - 1]);
    }
  }

  lemma HandleKeeps(c: Channel, ev: Event)
    requires Inv(c)
    ensures Inv(Handle(c, ev))
  {
    LossKept(c, ev);
    OrderKept(c, ev);
  }

  /**
    Reliable flooding. After any events, each advertisement taken since the last
    start of a running session is queued, in the unacknowledged send buffer, or in
    a packet of the session that the peer has processed.
   */
  lemma Reliable(evs: seq<Event>, l: Lsa)
    ensures var c := Exec(IDLE, evs);
            c.f.phase != F.Terminated && l in c.taken ==>
              || l in c.f.queue
              || (c.f.phase == F.AckWaiting && l in c.f.buf)
              || exists n :: c.base < n <= |c.sent| && n in c.log && l in c.sent[n - 1]
  {
    ExecKeeps(evs);
    var c := Exec(IDLE, evs);
    if c.f.phase != F.Terminated && l in c.taken && l !in c.f.queue {
      InConcat(c.sent[c.base..], l);
      var i :| 0 <= i < |c.sent[c.base..]| && l in c.sent[c.base..][i];
      var n := c.base + i + 1;
      assert c.sent[n - 1] == c.sent[c.base..][i];
      assert n in c.log || l in c.f.buf;
    }
  }

  /**
    First processing follows queue order: when the peer has processed packet p of
    the running session, it has, before the first time, processed all earlier ones,
    whose payloads in order are a prefix of what was taken.
   */
  lemma FirstProcessingInOrder(evs: seq<Event>, i: nat, m: nat)
    ensures var c := Exec(IDLE, evs);
            c.f.phase != F.Terminated && i < |c.log| && c.base < m < c.log[i] ==>
              m in c.log[..i] && m <= |c.sent| && Concat(c.sent[c.base..m]) <= c.taken
  {
    ExecKeeps(evs);
    var c := Exec(IDLE, evs);
    if c.f.phase != F.Terminated && i < |c.log| && c.base < m < c.log[i] {
      ConcatPrefix(c.sent[c.base..], m - c.base);
      assert c.sent[c.base..][..m - c.base] == c.sent[c.base..m];
    }
  }

  /** An acknowledgement advances the sender only if it is for the packet in the buffer, and that was processed. */
  lemma NoStaleAck(evs: seq<Event>, no: nat)
    ensures var c := Exec(IDLE, evs);
            Handle(c, Ack(no)).f != c.f ==>
              1 <= no == |c.sent| && no in c.log && c.f.phase == F.AckWaiting && c.sent[no - 1] == c.f.buf
  {
    ExecKeeps(evs);
  }
}

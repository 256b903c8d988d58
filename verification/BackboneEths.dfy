/**
  One backbone interface with its hello, exchange and flood masters, updated in
  place by packet and timer handlers (lsd/lsd_hello.c, lsd/lsd_exchange.c,
  lsd/lsd_flood.c). Every handler is proved against its function on values.
 */
module BackboneEths {
  import opened LinkStates
  import opened AreaNetwork
  import F = FloodLink
  import X = ExchangeLink

  /** The hello master: statuses, pending dead timers, the neighbour, and the high priority notifications so far. */
  datatype Hello = Hello(highUp: bool, lowUp: bool, deadHighArmed: bool, deadLowArmed: bool,
                         neighbor: Eth, notified: seq<bool>)

  /** The whole state of an interface; `out` lists the packets handed to the socket. */
  datatype Port = Port(me: Eth, hello: Hello, flood: F.Flood, exch: X.Exchange, out: seq<Msg>)

  /** An interface that has seen nothing yet. */
  function Idle(me: Eth): Port {
    Port(me, Hello(false, false, false, false, Eth(0, 0), []), F.INITIAL, X.INITIAL, [])
  }

  function Queued(p: Port, l: Lsa): Port {
    p.(flood := F.Enqueue(p.flood, l))
  }

  function Sends(p: Port, m: Msg): Port {
    p.(out := p.out + [m])
  }

  /** A data packet reopens a terminated reception. */
  function Heard(p: Port): Port {
    p.(exch := p.exch.(rcv := if p.exch.rcv == X.RcvTerminated then X.RcvWaiting else p.exch.rcv))
  }

  /** A data packet that was taken in is acknowledged, and the last one ends the reception. */
  function Answered(p: Port, no: nat, more: bool): Port {
    Sends(p, ExAck(p.me, no)).(exch := p.exch.(rcv := if more then p.exch.rcv else X.RcvEnd))
  }

  /** An interface whose link came up: exchange and flooding start, the first exchange packet goes out. */
  function Started(p: Port, snapshot: seq<Lsa>): Port {
    var x := X.Start(p.exch, snapshot);
    Sends(p, ExPacket(p.me, x)).(exch := x, flood := F.Start(p.flood))
  }

  /** The send timer of flooding: a batch goes out under the next number. */
  function Flushed(p: Port): Port {
    var f := F.SendLsa(p.flood);
    Sends(p, FloodData(p.me, f.pkgNo, f.buf)).(flood := f)
  }

  /** The retransmission timers: the same packet goes out again. */
  function Resent(p: Port): Port {
    Sends(p, FloodData(p.me, p.flood.pkgNo, p.flood.buf))
  }

  function ExResent(p: Port): Port {
    Sends(p, ExPacket(p.me, p.exch))
  }

  /** An exchange acknowledgement: the next packet goes out, or sending ends. */
  function ExAcked(p: Port, no: nat): Port {
    var x := X.AckReceived(p.exch, no);
    (if x.pkgNo == p.exch.pkgNo then p else Sends(p, ExPacket(p.me, x))).(exch := x)
  }

  lemma StartValid(p: Port, snapshot: seq<Lsa>)
    requires F.Valid(p.flood)
    ensures F.Valid(F.Start(p.flood)) && F.Start(p.flood).phase == F.Ready
    ensures X.Valid(X.Start(p.exch, snapshot)) && X.Start(p.exch, snapshot).send == X.SendWaiting
  {
  }

  class BackboneEth {
    const me: Eth

    // hello_master; a dead timer is pending exactly when armed
    var highUp: bool
    var lowUp: bool
    var deadHighArmed: bool
    var deadLowArmed: bool
    var neighbor: Eth

    // flood_master
    var phase: F.Phase
    var queue: seq<Lsa>
    var floodBuf: seq<Lsa>
    var floodNo: nat
    var sndArmed: bool
    var floodAckArmed: bool

    // exchange_master
    var send: X.SendPhase
    var rcv: X.RcvPhase
    var rest: seq<Lsa>
    var exBuf: seq<Lsa>
    var exNo: nat
    var exAckArmed: bool

    /** Packets handed to the socket. */
    var out: seq<Msg>

    /** High priority notifications so far: up or down. */
    ghost var notified: seq<bool>

    function Flood(): F.Flood
      reads this
    {
      F.Flood(phase, queue, floodBuf, floodNo, sndArmed, floodAckArmed)
    }

    function Exch(): X.Exchange
      reads this
    {
      X.Exchange(send, rcv, rest, exBuf, exNo, exAckArmed)
    }

    ghost function State(): Port
      reads this
    {
      Port(me, Hello(highUp, lowUp, deadHighArmed, deadLowArmed, neighbor, notified), Flood(), Exch(), out)
    }

    /** Status and pending timers of the hello machine. */
    ghost predicate HelloValid()
      reads this`highUp, this`lowUp, this`deadHighArmed, this`deadLowArmed, this`neighbor, this`notified
    {
      && (deadHighArmed <==> highUp)
      && (deadLowArmed <==> lowUp)
      && (forall i :: 0 <= i < |notified| ==> notified[i] == (i % 2 == 0))
      && (highUp <==> |notified| % 2 == 1)
      && (highUp || lowUp || notified != [] ==> neighbor.rt != 0)
    }

    /** Exchange and flooding run exactly while the high priority status is up. */
    ghost predicate Valid()
      reads this
    {
      && HelloValid()
      && F.Valid(Flood()) && X.Valid(Exch())
      && (send == X.SendTerminated <==> !highUp)
      && (phase == F.Terminated <==> !highUp)
    }

    constructor (me: Eth)
      ensures Valid() && this.me == me && State() == Idle(me)
    {
      this.me := me;
      highUp, lowUp, deadHighArmed, deadLowArmed := false, false, false, false;
      neighbor := Eth(0, 0);
      phase, queue, floodBuf, floodNo, sndArmed, floodAckArmed := F.Terminated, [], [], 0, false, false;
      send, rcv, rest, exBuf, exNo, exAckArmed := X.SendTerminated, X.RcvWaiting, [], [], 0, false;
      out, notified := [], [];
    }

    // ----- hello -----

    /** hello_on_high_packet_received up to the notification, which goes out only on a change. */
    method HighHello(from: Eth) returns (cameUp: bool)
      requires HelloValid() && from.rt != 0
      modifies this`deadHighArmed, this`highUp, this`neighbor, this`notified
      ensures HelloValid() && highUp && cameUp == !old(highUp)
      ensures notified == old(notified) + if cameUp then [true] else []
      ensures neighbor == if cameUp then from else old(neighbor)
    {
      deadHighArmed := true;
      cameUp := !highUp;
      if cameUp {
        highUp := true;
        neighbor := from;
        notified := notified + [true];
      }
    }

    /** dead_timer_high up to the notification; its assertion holds because the timer was pending. */
    method HighDead()
      requires HelloValid() && deadHighArmed
      modifies this`deadHighArmed, this`highUp, this`notified
      ensures HelloValid() && !highUp && notified == old(notified) + [false]
    {
      deadHighArmed := false;
      assert highUp;
      highUp := false;
      notified := notified + [false];
    }

    /** hello_on_low_packet_received up to the notification. */
    method LowHello(from: Eth) returns (cameUp: bool)
      requires HelloValid() && from.rt != 0
      modifies this`deadLowArmed, this`lowUp, this`neighbor
      ensures HelloValid() && lowUp && cameUp == !old(lowUp)
      ensures neighbor == if cameUp then from else old(neighbor)
    {
      deadLowArmed := true;
      cameUp := !lowUp;
      if cameUp {
        lowUp := true;
        neighbor := from;
      }
    }

    /** dead_timer_low up to the notification. */
    method LowDead()
      requires HelloValid() && deadLowArmed
      modifies this`deadLowArmed, this`lowUp
      ensures HelloValid() && !lowUp
    {
      deadLowArmed := false;
      assert lowUp;
      lowUp := false;
    }

    // ----- flooding -----

    /** flood_add_flood_lsa. */
    method FloodAdd(l: Lsa)
      requires F.Valid(Flood())
      modifies this`phase, this`queue, this`sndArmed
      ensures Flood() == F.Enqueue(old(Flood()), l) && F.Valid(Flood())
      ensures old(Valid()) ==> Valid()
    {
      if phase == F.Terminated {
        return;
      }
      queue := queue + [l];
      if phase == F.Ready {
        phase := F.Busy;
        sndArmed := true;
      }
    }

    /** The packing loop of flood_send_lsa. */
    method Pack()
      modifies this`queue, this`floodBuf
      ensures floodBuf == old(queue)[..F.BatchSize(old(queue))] && queue == old(queue)[F.BatchSize(old(queue))..]
    {
      floodBuf := [];
      var count := 0;
      while queue != [] && count < F.LSA_CT_PER_PAK
        invariant count <= F.LSA_CT_PER_PAK && count <= |old(queue)|
        invariant floodBuf == old(queue)[..count] && queue == old(queue)[count..]
      {
        count := count + 1;
        floodBuf := floodBuf + [queue[0]];
        queue := queue[1..];
      }
    }

    /** flood_send_lsa: the send timer fired. */
    method FloodSend()
      requires F.Valid(Flood()) && sndArmed
      modifies this`phase, this`queue, this`floodBuf, this`floodNo, this`sndArmed, this`floodAckArmed, this`out
      ensures Flood() == F.SendLsa(old(Flood())) && F.Valid(Flood())
      ensures out == old(out) + [FloodData(me, floodNo, floodBuf)]
    {
      hide HelloValid, F.BatchSize;
      sndArmed := false;
      floodNo := floodNo + 1;
      Pack();
      phase := F.AckWaiting;
      floodAckArmed := true;
      out := out + [FloodData(me, floodNo, floodBuf)];
    }

    /** The same, as a step of the whole interface. */
    method FloodTimer()
      requires Valid() && sndArmed
      modifies this
      ensures Valid() && State() == Flushed(old(State()))
    {
      hide HelloValid;
      FloodSend();
    }

    /** flood_ack_timeout. */
    method FloodAckTimeout()
      requires F.Valid(Flood()) && floodAckArmed
      modifies this`floodAckArmed, this`out
      ensures Flood() == old(Flood()) && phase == F.AckWaiting
      ensures out == old(out) + [FloodData(me, floodNo, floodBuf)]
    {
      out := out + [FloodData(me, floodNo, floodBuf)];
      floodAckArmed := true;
    }

    /** The acknowledgement branch of flood_pkt_received. */
    method FloodAckReceived(no: nat)
      requires F.Valid(Flood())
      modifies this`phase, this`sndArmed, this`floodAckArmed
      ensures Flood() == F.AckReceived(old(Flood()), no) && F.Valid(Flood())
    {
      if phase == F.AckWaiting && no == floodNo {
        floodAckArmed := false;
        if queue == [] {
          phase := F.Ready;
        } else {
          phase := F.Busy;
          sndArmed := true;
        }
      }
    }

    /** flood_terminate. */
    method FloodTerminate()
      modifies this`phase, this`queue, this`sndArmed, this`floodAckArmed
      ensures Flood() == F.Stop(old(Flood())) && (old(F.Valid(Flood())) ==> F.Valid(Flood()))
    {
      floodAckArmed := false;
      sndArmed := false;
      phase := F.Terminated;
      while queue != []
        invariant !floodAckArmed && !sndArmed && phase == F.Terminated
        decreases |queue|
      {
        queue := queue[1..];
      }
    }

    /** flood_start. */
    method FloodStart()
      modifies this`phase, this`queue, this`sndArmed, this`floodAckArmed
      ensures Flood() == F.Start(old(Flood()))
    {
      FloodTerminate();
      assert phase == F.Terminated;
      phase := F.Ready;
    }

    // ----- exchange -----

    /** exchange_send. */
    method ExchangeSend()
      modifies this`send, this`rest, this`exBuf, this`exAckArmed, this`out
      ensures Exch() == X.SendNext(old(Exch()))
      ensures out == old(out) + [ExPacket(me, Exch())]
    {
      exBuf := [];
      while |exBuf| < X.LINK_LSA_CT_PER_PAK && rest != []
        invariant |exBuf| <= X.LINK_LSA_CT_PER_PAK && |exBuf| <= |old(rest)|
        invariant exBuf == old(rest)[..|exBuf|] && rest == old(rest)[|exBuf|..]
        invariant send == old(send) && exAckArmed == old(exAckArmed) && out == old(out)
        decreases |rest|
      {
        exBuf := exBuf + [rest[0]];
        rest := rest[1..];
      }
      send := X.SendWaiting;
      exAckArmed := true;
      out := out + [ExData(me, exNo, exBuf, rest != [])];
    }

    /** exchange_send_start; its assertion holds because the link was down. */
    method ExchangeStart(snapshot: seq<Lsa>)
      requires send == X.SendTerminated
      modifies this`send, this`rest, this`exBuf, this`exAckArmed, this`out
      ensures Exch() == X.Start(old(Exch()), snapshot)
      ensures out == old(out) + [ExPacket(me, Exch())]
    {
      assert send == X.SendTerminated;
      send := X.SendWaiting;
      rest := snapshot;
      ExchangeSend();
    }

    /** exchange_send_start and flood_start, for a link that came up. */
    method StartLink(snapshot: seq<Lsa>)
      requires HelloValid() && highUp && send == X.SendTerminated && phase == F.Terminated && F.Valid(Flood())
      modifies this
      ensures Valid() && State() == Started(old(State()), snapshot)
    {
      hide F.Valid, F.Start, X.Start;
      StartValid(State(), snapshot);
      ExchangeStart(snapshot);
      FloodStart();
    }

    /** exchange_terminate. */
    method ExchangeTerminate()
      modifies this`send, this`rcv, this`rest, this`exNo, this`exAckArmed
      ensures Exch() == X.Stop(old(Exch())) && X.Valid(Exch())
    {
      rest := [];
      exAckArmed := false;
      exNo := 0;
      send := X.SendTerminated;
      rcv := X.RcvTerminated;
    }

    /** ack_time_excceed; its assertion holds because the timer is pending only while waiting. */
    method ExchangeAckTimeout()
      requires Valid() && exAckArmed
      modifies this`exAckArmed, this`out
      ensures Valid() && Exch() == old(Exch())
      ensures out == old(out) + [ExPacket(me, Exch())]
    {
      exAckArmed := false;
      assert send == X.SendWaiting;
      exAckArmed := true;
      out := out + [ExData(me, exNo, exBuf, rest != [])];
    }

    /** The checks of exchange_pkt_received before a data packet is processed. */
    method ExchangeListen(ls: seq<Lsa>) returns (listens: bool)
      modifies this`rcv
      ensures listens == X.Listens(old(Exch()), ls)
      ensures Exch() == old(Exch()).(rcv := if old(rcv) == X.RcvTerminated then X.RcvWaiting else old(rcv))
      ensures Flood() == old(Flood()) && (old(Valid()) ==> Valid())
    {
      if rcv == X.RcvTerminated {
        rcv := X.RcvWaiting;
      }
      listens := rcv == X.RcvWaiting && ls != [];
    }

    /** What exchange_pkt_received does after a data packet was processed. */
    method ExchangeProcessed(no: nat, more: bool)
      modifies this`rcv, this`out
      ensures Exch() == old(Exch()).(rcv := if more then old(rcv) else X.RcvEnd)
      ensures out == old(out) + [ExAck(me, no)]
      ensures Flood() == old(Flood()) && (old(Valid()) ==> Valid())
    {
      out := out + [ExAck(me, no)];
      if !more {
        rcv := X.RcvEnd;
      }
    }

    /** The acknowledgement branch of exchange_pkt_received. */
    method ExchangeAckReceived(no: nat)
      requires Valid()
      modifies this`send, this`rest, this`exBuf, this`exNo, this`exAckArmed, this`out
      ensures Valid() && Exch() == X.AckReceived(old(Exch()), no)
      ensures out == if exNo == old(exNo) then old(out) else old(out) + [ExPacket(me, Exch())]
      ensures State() == ExAcked(old(State()), no)
    {
      if send == X.SendWaiting && no == exNo {
        exAckArmed := false;
        if rest != [] {
          exNo := exNo + 1;
          ExchangeSend();
        } else {
          send := X.SendEnd;
        }
      }
    }
  }
}

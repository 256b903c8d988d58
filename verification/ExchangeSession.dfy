/**
  One session of the database exchange, from exchange_send_start, over a channel
  that loses, duplicates and reorders but holds nothing from an earlier session.
 */
module ExchangeSession {
  import opened LinkStates
  import opened Sequences
  import X = ExchangeLink

  datatype Packet = Packet(lsas: seq<Lsa>, more: bool)

  /** `sent[n]` is packet n; `log` lists the packets the peer has processed and `acks` those it acknowledged. */
  datatype Session = Session(x: X.Exchange, rcv: X.RcvPhase, sent: seq<Packet>, log: seq<nat>, acks: set<nat>)

  function Begin(x: X.Exchange, rcv: X.RcvPhase, snapshot: seq<Lsa>): Session {
    var x' := X.Start(x, snapshot);
    Session(x', rcv, [Packet(x'.buf, x'.rest != [])], [], {})
  }

  datatype Event = AckTimer | Data(no: nat) | Ack(no: nat)

  /** The peer's half of exchange_pkt_received: it processes and acknowledges only while it listens. */
  function Arrive(s: Session, no: nat): Session
    requires no < |s.sent|
  {
    var p := s.sent[no];
    var peer := X.INITIAL.(rcv := s.rcv);
    var after := X.DataReceived(peer, p.lsas, p.more).rcv;
    if X.Listens(peer, p.lsas) then s.(rcv := after, log := s.log + [no], acks := s.acks + {no})
    else s.(rcv := after)
  }

  function Handle(s: Session, ev: Event): Session {
    match ev
    case AckTimer => s
    case Data(no) => if no < |s.sent| then Arrive(s, no) else s
    case Ack(no) =>
      if no in s.acks then
        var x := X.AckReceived(s.x, no);
        s.(x := x, sent := if x.pkgNo == s.x.pkgNo then s.sent else s.sent + [Packet(x.buf, x.rest != [])])
      else s
  }

  function Exec(s: Session, evs: seq<Event>): Session
    decreases |evs|
  {
    if evs == [] then s else Handle(Exec(s, evs[..|evs| - 1]), evs[|evs| - 1])
  }

  function Payloads(packets: seq<Packet>): (ps: seq<seq<Lsa>>)
    ensures |ps| == |packets| && forall i :: 0 <= i < |packets| ==> ps[i] == packets[i].lsas
  {
    seq(|packets|, i requires 0 <= i < |packets| => packets[i].lsas)
  }

  predicate Inv(s: Session, snapshot: seq<Lsa>, rcv0: X.RcvPhase) {
    && X.Valid(s.x) && s.x.send != X.SendTerminated
    && |s.sent| == s.x.pkgNo + 1 && s.sent[s.x.pkgNo] == Packet(s.x.buf, s.x.rest != [])
    && snapshot == Concat(Payloads(s.sent)) + s.x.rest
    && (s.x.send == X.SendEnd ==> s.x.rest == [] && s.x.pkgNo in s.log)
    && (forall n :: 0 <= n < s.x.pkgNo ==> n in s.log && s.sent[n].more)
    && (forall n :: n in s.acks ==> n in s.log)
    && (s.rcv == X.RcvEnd && rcv0 != X.RcvEnd ==> s.x.rest == [] && s.x.pkgNo in s.log)
  }

  lemma HandleKeeps(s: Session, ev: Event, snapshot: seq<Lsa>, rcv0: X.RcvPhase)
    requires Inv(s, snapshot, rcv0)
    ensures Inv(Handle(s, ev), snapshot, rcv0)
  {
    var s' := Handle(s, ev);
    if s'.sent != s.sent {
      assert Payloads(s'.sent)[..|s'.sent| - 1] == Payloads(s.sent);
      assert s.x.rest == s'.x.buf + s'.x.rest;
    }
  }

  lemma {:induction false} ExecKeeps(x: X.Exchange, rcv0: X.RcvPhase, snapshot: seq<Lsa>, evs: seq<Event>)
    requires x.send == X.SendTerminated && x.pkgNo == 0
    ensures Inv(Exec(Begin(x, rcv0, snapshot), evs), snapshot, rcv0)
    decreases |evs|
  {
    if evs == [] {
      var s := Begin(x, rcv0, snapshot);
      assert Payloads(s.sent)[..0] == [] && Concat(Payloads(s.sent)) == s.x.buf;
      assert snapshot == s.x.buf + s.x.rest;
    } else {
      hide Inv;
      ExecKeeps(x, rcv0, snapshot, evs[..|evs| - 1]);
      HandleKeeps(Exec(Begin(x, rcv0, snapshot), evs[..|evs| - 1]), evs[|evs| - 1], snapshot, rcv0);
    }
  }

  /**
    Exchange completeness. After any events, if the sender has reached SEND_END, or
    the peer has reached RCV_END in this session, every link state of the snapshot
    is in a packet the peer has processed.
   */
  lemma Complete(x: X.Exchange, rcv0: X.RcvPhase, snapshot: seq<Lsa>, evs: seq<Event>, l: Lsa)
    requires x.send == X.SendTerminated && x.pkgNo == 0 && l in snapshot
    ensures var s := Exec(Begin(x, rcv0, snapshot), evs);
            s.x.send == X.SendEnd || (s.rcv == X.RcvEnd && rcv0 != X.RcvEnd) ==>
              exists n :: 0 <= n < |s.sent| && n in s.log && l in s.sent[n].lsas
  {
    ExecKeeps(x, rcv0, snapshot, evs);
    var s := Exec(Begin(x, rcv0, snapshot), evs);
    if s.x.send == X.SendEnd || (s.rcv == X.RcvEnd && rcv0 != X.RcvEnd) {
      InConcat(Payloads(s.sent), l);
      var n :| 0 <= n < |s.sent| && l in Payloads(s.sent)[n];
      assert l in s.sent[n].lsas;
    }
  }
}

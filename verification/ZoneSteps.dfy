/**
  Every step of an area is, at the router it happens at, what the handler of its zone
  does: database, flooding, exchange and the packet sent. Other routers do not change.
 */
module ZoneSteps {
  import opened LinkStates
  import opened Sequences
  import opened AreaNetwork
  import opened BackboneEths
  import opened Zones
  import F = FloodLink
  import X = ExchangeLink

  /** The interfaces `ifs` of router `self`, each listed once. */
  predicate Interfaces(t: Topology, self: nat, ifs: seq<Eth>) {
    && self in t.routers
    && (forall i :: 0 <= i < |ifs| ==> ifs[i] in t.peer && ifs[i].rt == self)
    && (forall i, j :: 0 <= i < j < |ifs| ==> ifs[i] != ifs[j])
  }

  /** Router state r is what the area says of router `self`. */
  predicate Mirrors(t: Topology, s: Sys, self: nat, ifs: seq<Eth>, r: Local) {
    && Shape(t, s) && Interfaces(t, self, ifs) && |r.ports| == |ifs| && r.db == s.db[self]
    && (forall i :: 0 <= i < |ifs| ==>
          r.ports[i].me == ifs[i] && r.ports[i].flood == s.flood[ifs[i]] && r.ports[i].exch == s.exch[ifs[i]])
  }

  /** From s to s' only router `self` has changed. */
  predicate OnlyAt(t: Topology, s: Sys, s': Sys, self: nat) {
    && Shape(t, s) && Shape(t, s')
    && (forall q :: q in t.routers && q != self ==> s'.db[q] == s.db[q])
    && (forall e :: e in t.peer && e.rt != self ==> s'.flood[e] == s.flood[e] && s'.exch[e] == s.exch[e])
  }

  /** Nothing has been sent between r and r', and the exchanges stand where they stood. */
  predicate SameSent(r: Local, r': Local) {
    && |r'.ports| == |r.ports|
    && (forall j :: 0 <= j < |r.ports| ==> r'.ports[j] == r.ports[j].(flood := r'.ports[j].flood))
  }

  lemma ReceiveMirrors(t: Topology, s: Sys, self: nat, ifs: seq<Eth>, r: Local, i: nat, l: Lsa, now: int)
    requires ValidTopology(t) && Mirrors(t, s, self, ifs, r) && i < |ifs|
    ensures Mirrors(t, Receive(t, s, ifs[i], l, now), self, ifs, AcceptLocal(r, self, i, l, now))
  {
    hide F.Enqueue, Accept, ValidTopology;
    var s', r' := Receive(t, s, ifs[i], l, now), AcceptLocal(r, self, i, l, now);
    forall j | 0 <= j < |ifs|
      ensures r'.ports[j].me == ifs[j] && r'.ports[j].exch == s'.exch[ifs[j]] && s'.flood[ifs[j]] == r'.ports[j].flood
    {
      assert ifs[j] == ifs[i] <==> j == i;
    }
  }

  lemma ReceiveOnlyAt(t: Topology, s: Sys, f: Eth, l: Lsa, now: int)
    requires ValidTopology(t) && Shape(t, s) && f in t.peer
    ensures var s' := Receive(t, s, f, l, now); OnlyAt(t, s, s', f.rt) && s'.net == s.net && s'.exch == s.exch
  {
    hide F.Enqueue, Accept, ValidTopology;
  }

  lemma AcceptSameSent(r: Local, self: nat, i: nat, l: Lsa, now: int)
    requires i < |r.ports|
    ensures SameSent(r, AcceptLocal(r, self, i, l, now))
  {
    hide F.Enqueue, Accept;
  }

  /** The two views of one advertisement, or more, being taken in agree, and nothing is sent meanwhile. */
  ghost predicate TakenIn(t: Topology, s: Sys, s': Sys, self: nat, ifs: seq<Eth>, r: Local, r': Local) {
    Mirrors(t, s', self, ifs, r') && OnlyAt(t, s, s', self) && SameSent(r, r') && s'.net == s.net && s'.exch == s.exch
  }

  lemma TakenInTwice(t: Topology, s: Sys, s1: Sys, s': Sys, self: nat, ifs: seq<Eth>, r: Local, r1: Local, r': Local)
    requires TakenIn(t, s, s1, self, ifs, r, r1) && TakenIn(t, s1, s', self, ifs, r1, r')
    ensures TakenIn(t, s, s', self, ifs, r, r')
  {
    hide Mirrors;
    OnlyAtTwice(t, s, s1, s', self);
  }

  lemma MirrorsFits(t: Topology, s: Sys, self: nat, ifs: seq<Eth>, r: Local, i: nat)
    requires Mirrors(t, s, self, ifs, r) && i < |ifs|
    ensures Shape(t, s) && ifs[i] in t.peer && ifs[i].rt == self && i < |r.ports| && |r.ports| == |ifs|
    ensures r.ports[i].me == ifs[i] && r.ports[i].exch == s.exch[ifs[i]] && r.ports[i].flood == s.flood[ifs[i]]
  {
  }

  lemma {:induction false} ReceiveAllMirrors(t: Topology, s: Sys, self: nat, ifs: seq<Eth>, r: Local, i: nat,
                                             ls: seq<Lsa>, now: int)
    requires ValidTopology(t) && Mirrors(t, s, self, ifs, r) && i < |ifs|
    ensures Shape(t, s) && ifs[i] in t.peer && i < |r.ports|
    ensures TakenIn(t, s, ReceiveAll(t, s, ifs[i], ls, now), self, ifs, r, AcceptAllLocal(r, self, i, ls, now))
    decreases |ls|
  {
    hide Receive, AcceptLocal, Mirrors, SameSent, OnlyAt, ValidTopology;
    MirrorsFits(t, s, self, ifs, r, i);
    if ls == [] {
      SelfTakenIn(t, s, self, ifs, r);
    } else {
      var s1, r1 := Receive(t, s, ifs[i], ls[0], now), AcceptLocal(r, self, i, ls[0], now);
      ReceiveMirrors(t, s, self, ifs, r, i, ls[0], now);
      ReceiveOnlyAt(t, s, ifs[i], ls[0], now);
      AcceptSameSent(r, self, i, ls[0], now);
      ReceiveAllMirrors(t, s1, self, ifs, r1, i, ls[1..], now);
      TakenInTwice(t, s, s1, ReceiveAll(t, s1, ifs[i], ls[1..], now), self, ifs, r, r1,
                   AcceptAllLocal(r1, self, i, ls[1..], now));
    }
  }

  lemma SelfTakenIn(t: Topology, s: Sys, self: nat, ifs: seq<Eth>, r: Local)
    requires Mirrors(t, s, self, ifs, r)
    ensures TakenIn(t, s, s, self, ifs, r, r)
  {
  }

  /** A step that touches one interface and the network only. */
  lemma PortMirrors(t: Topology, s: Sys, self: nat, ifs: seq<Eth>, r: Local, i: nat, p: Port, net: set<Msg>)
    requires ValidTopology(t) && Mirrors(t, s, self, ifs, r) && i < |ifs| && p.me == ifs[i]
    requires forall m :: m in net ==> m.src in t.peer
    ensures var s' := Sys(s.db, s.flood[ifs[i] := p.flood], s.exch[ifs[i] := p.exch], net);
            Mirrors(t, s', self, ifs, r.(ports := r.ports[i := p])) && OnlyAt(t, s, s', self)
  {
  }

  lemma OwnMirrors(t: Topology, s: Sys, self: nat, ifs: seq<Eth>, r: Local, k: Key, info: Info, age: int)
    requires ValidTopology(t) && Mirrors(t, s, self, ifs, r) && k.rt == self
    ensures var s', r' := SpreadOwn(t, s, k, info, age), OwnLocal(r, k, info, age);
            Mirrors(t, s', self, ifs, r') && OnlyAt(t, s, s', self) && SameSent(r, r')
            && s'.net == s.net && s'.exch == s.exch
  {
    hide F.Enqueue;
  }

  lemma DbMirrors(t: Topology, s: Sys, self: nat, ifs: seq<Eth>, r: Local, db: Db)
    requires ValidTopology(t) && Mirrors(t, s, self, ifs, r)
    ensures var s' := s.(db := s.db[self := db]); Mirrors(t, s', self, ifs, r.(db := db)) && OnlyAt(t, s, s', self)
  {
  }

  lemma OnlyAtTwice(t: Topology, a: Sys, b: Sys, c: Sys, self: nat)
    requires OnlyAt(t, a, b, self) && OnlyAt(t, b, c, self)
    ensures OnlyAt(t, a, c, self)
  {
  }

  /** What the handlers at interface i make of a packet from its peer. */
  function Received(r: Local, self: nat, i: nat, m: Msg, now: int): Local
    requires i < |r.ports|
  {
    match m
    case FloodData(_, no, ls) => FloodDataLocal(r, self, i, no, ls, now)
    case FloodAck(_, no) => r.(ports := r.ports[i := r.ports[i].(flood := F.AckReceived(r.ports[i].flood, no))])
    case ExData(_, no, ls, more) => ExDataLocal(r, self, i, no, ls, more, now)
    case ExAck(_, no) => r.(ports := r.ports[i := ExAcked(r.ports[i], no)])
  }

  /** What the handlers of interface i make of a step of theirs, and for an origination those of the router. */
  function Handled(t: Topology, r: Local, self: nat, i: nat, step: Step): Local
    requires i < |r.ports| && (step.LinkUp? || step.LinkDown? ==> r.ports[i].me in t.peer)
  {
    match step
    case Originate(k, info, age) => OwnLocal(r, k, info, age)
    case SendTimer(_) => r.(ports := r.ports[i := Flushed(r.ports[i])])
    case Resend(_) => r.(ports := r.ports[i := Resent(r.ports[i])])
    case ExResend(_) => r.(ports := r.ports[i := ExResent(r.ports[i])])
    case Deliver(m, now) => Received(r, self, i, m, now)
    case LinkUp(_, now, info, snapshot) => UpLocal(r, i, PortKey(r.ports[i], t.peer[r.ports[i].me]), info, now,
                                                   snapshot)
    case LinkDown(_, now, info) => DownLocal(r, i, PortKey(r.ports[i], t.peer[r.ports[i].me]), info, now)
  }

  /** The step happens at interface e. */
  predicate HappensAt(t: Topology, step: Step, e: Eth) {
    match step
    case Originate(k, _, _) => k.rt == e.rt
    case SendTimer(f) => f == e
    case Resend(f) => f == e
    case ExResend(f) => f == e
    case Deliver(m, _) => m.src in t.peer && t.peer[m.src] == e
    case LinkUp(f, _, _, _) => f == e
    case LinkDown(f, _, _) => f == e
  }

  /** What interface i has sent between r and r', where the others have sent nothing. */
  predicate Sent(r: Local, r': Local, i: nat, packets: seq<Msg>) {
    && |r'.ports| == |r.ports| && i < |r.ports|
    && r'.ports[i].out == r.ports[i].out + packets
    && (forall j :: 0 <= j < |r.ports| && j != i ==> r'.ports[j].out == r.ports[j].out)
  }

  /** The area's next state, seen from router `self`, is r', and it holds the packets that r' has sent. */
  ghost predicate Follows(t: Topology, s: Sys, s': Sys, self: nat, ifs: seq<Eth>, r: Local, r': Local, i: nat) {
    && Mirrors(t, s', self, ifs, r') && OnlyAt(t, s, s', self)
    && exists packets :: Sent(r, r', i, packets) && s'.net == s.net + Members(packets)
  }

  lemma ByPackets(t: Topology, s: Sys, s': Sys, self: nat, ifs: seq<Eth>, r: Local, r': Local, i: nat,
                  packets: seq<Msg>)
    requires Mirrors(t, s', self, ifs, r') && OnlyAt(t, s, s', self) && Sent(r, r', i, packets)
    requires |packets| <= 1 && s'.net == if packets == [] then s.net else s.net + {packets[0]}
    ensures Follows(t, s, s', self, ifs, r, r', i)
  {
    assert Members(packets) == if packets == [] then {} else {packets[0]};
  }

  lemma FloodDataFollows(t: Topology, s: Sys, self: nat, ifs: seq<Eth>, r: Local, i: nat, no: nat, ls: seq<Lsa>,
                         now: int)
    requires ValidTopology(t) && Mirrors(t, s, self, ifs, r) && i < |ifs|
    ensures Follows(t, s, OnFloodData(t, s, ifs[i], no, ls, now), self, ifs, r, FloodDataLocal(r, self, i, no, ls, now),
                    i)
  {
    hide ReceiveAll, AcceptAllLocal, Follows;
    var ack := FloodAck(ifs[i], no);
    var r1 := r.(ports := r.ports[i := Sends(r.ports[i], ack)]);
    ReceiveAllMirrors(t, s, self, ifs, r1, i, ls, now);
    ByPackets(t, s, OnFloodData(t, s, ifs[i], no, ls, now), self, ifs, r, FloodDataLocal(r, self, i, no, ls, now), i,
              [ack]);
  }

  lemma ExDataFollows(t: Topology, s: Sys, self: nat, ifs: seq<Eth>, r: Local, i: nat, no: nat, ls: seq<Lsa>,
                      more: bool, now: int)
    requires ValidTopology(t) && Mirrors(t, s, self, ifs, r) && i < |ifs|
    ensures Follows(t, s, OnExData(t, s, ifs[i], no, ls, more, now), self, ifs, r,
                    ExDataLocal(r, self, i, no, ls, more, now), i)
  {
    hide ReceiveAll, AcceptAllLocal, Follows, ValidTopology, X.DataReceived, Heard, Answered;
    var e, p := ifs[i], r.ports[i];
    var s', r' := OnExData(t, s, e, no, ls, more, now), ExDataLocal(r, self, i, no, ls, more, now);
    if X.Listens(p.exch, ls) {
      ReceiveAllMirrors(t, s, self, ifs, r, i, ls, now);
      ExDataPort(r, self, i, no, ls, more, now);
      WithExchange(t, s, ReceiveAll(t, s, e, ls, now), self, ifs, r, AcceptAllLocal(r, self, i, ls, now), i, r',
                   ExAck(e, no));
      ByPackets(t, s, s', self, ifs, r, r', i, [ExAck(e, no)]);
    } else {
      HeardOnly(p, ls, more);
      PortMirrors(t, s, self, ifs, r, i, Heard(p), s.net);
      ByPackets(t, s, s', self, ifs, r, r', i, []);
    }
  }

  lemma HeardOnly(p: Port, ls: seq<Lsa>, more: bool)
    requires !X.Listens(p.exch, ls)
    ensures Heard(p) == p.(exch := X.DataReceived(p.exch, ls, more))
  {
  }

  /** The exchange state and the acknowledgement, put on top of what was taken in. */
  lemma WithExchange(t: Topology, s: Sys, s1: Sys, self: nat, ifs: seq<Eth>, r: Local, r1: Local, i: nat, r': Local,
                     ack: Msg)
    requires TakenIn(t, s, s1, self, ifs, r, r1) && Mirrors(t, s, self, ifs, r) && i < |ifs| && ack.src == ifs[i]
    requires SameDbAndFlood(r', r1) && r'.ports[i].me == ifs[i]
    requires forall j :: 0 <= j < |r.ports| && j != i ==> r'.ports[j] == r.ports[j].(flood := r'.ports[j].flood)
    ensures var s' := s1.(net := s1.net + {ack}, exch := s1.exch[ifs[i] := r'.ports[i].exch]);
            Mirrors(t, s', self, ifs, r') && OnlyAt(t, s, s', self)
  {
  }

  /** Taking a packet in does not look at the exchange, so its result can be written down in advance. */
  lemma {:induction false} AcceptIgnoresExchange(r: Local, q: Local, self: nat, i: nat, ls: seq<Lsa>, now: int)
    requires i < |r.ports| && SameDbAndFlood(r, q)
    ensures SameDbAndFlood(AcceptAllLocal(r, self, i, ls, now), AcceptAllLocal(q, self, i, ls, now))
    ensures SameSent(r, AcceptAllLocal(r, self, i, ls, now))
    decreases |ls|
  {
    if ls != [] {
      AcceptIgnoresExchange(AcceptLocal(r, self, i, ls[0], now), AcceptLocal(q, self, i, ls[0], now), self, i, ls[1..],
                            now);
    }
  }

  predicate SameDbAndFlood(r: Local, q: Local) {
    && r.db == q.db && |r.ports| == |q.ports|
    && (forall j :: 0 <= j < |r.ports| ==> r.ports[j].flood == q.ports[j].flood)
  }

  lemma ExDataPort(r: Local, self: nat, i: nat, no: nat, ls: seq<Lsa>, more: bool, now: int)
    requires i < |r.ports| && X.Listens(r.ports[i].exch, ls)
    ensures var r', q := ExDataLocal(r, self, i, no, ls, more, now), AcceptAllLocal(r, self, i, ls, now);
      && |r'.ports| == |r.ports| && SameDbAndFlood(r', q) && r'.ports[i].me == r.ports[i].me
      && Sent(r, r', i, [ExAck(r.ports[i].me, no)])
      && r'.ports[i].exch == X.DataReceived(r.ports[i].exch, ls, more)
      && (forall j :: 0 <= j < |r.ports| && j != i ==> r'.ports[j] == r.ports[j].(flood := r'.ports[j].flood))
  {
    hide AcceptAllLocal;
    var r1 := r.(ports := r.ports[i := Heard(r.ports[i])]);
    AcceptIgnoresExchange(r1, r, self, i, ls, now);
    AcceptIgnoresExchange(r, r, self, i, ls, now);
  }

  /** Interface i coming up. */
  lemma BringUpFollows(t: Topology, s: Sys, self: nat, ifs: seq<Eth>, r: Local, i: nat, now: int, info: Info,
                       snapshot: seq<Lsa>)
    requires ValidTopology(t) && Mirrors(t, s, self, ifs, r) && i < |ifs|
    ensures Shape(t, s) && ifs[i] in t.peer && i < |r.ports|
    ensures Follows(t, s, BringUp(t, s, ifs[i], now, info, snapshot), self, ifs, r,
                    UpLocal(r, i, PortKey(r.ports[i], t.peer[ifs[i]]), info, now, snapshot), i)
  {
    hide Mirrors, OnlyAt, Follows, SpreadOwn, OwnLocal, X.Start, F.Start, ValidTopology;
    MirrorsFits(t, s, self, ifs, r, i);
    PeerFits(t, ifs[i]);
    var e, k, p := ifs[i], AreaNetwork.LinkKey(t, ifs[i]), r.ports[i];
    var x := X.Start(p.exch, snapshot);
    var db := r.db[k := HelloEntry(r.db, k, info, now)];
    MirrorsDb(t, s, self, ifs, r);
    var sa, ra := s.(db := s.db[self := db]), r.(db := db);
    DbMirrors(t, s, self, ifs, r, db);
    PortMirrors(t, sa, self, ifs, ra, i, Started(p, snapshot), s.net + {ExPacket(e, x)});
    var s1 := Sys(sa.db, s.flood[e := F.Start(s.flood[e])], s.exch[e := x], s.net + {ExPacket(e, x)});
    var r1 := Local(db, r.ports[i := Started(p, snapshot)]);
    OwnMirrors(t, s1, self, ifs, r1, k, info, now);
    OnlyAtTwice(t, s, sa, s1, self);
    OnlyAtTwice(t, s, s1, SpreadOwn(t, s1, k, info, now), self);
    ByPackets(t, s, SpreadOwn(t, s1, k, info, now), self, ifs, r, OwnLocal(r1, k, info, now), i, [ExPacket(e, x)]);
  }

  lemma MirrorsDb(t: Topology, s: Sys, self: nat, ifs: seq<Eth>, r: Local)
    requires Mirrors(t, s, self, ifs, r)
    ensures Shape(t, s) && self in s.db && r.db == s.db[self] && self in t.routers
    ensures forall m :: m in s.net ==> m.src in t.peer
  {
  }

  /** Interface i going down: nothing is sent. */
  lemma TakeDownFollows(t: Topology, s: Sys, self: nat, ifs: seq<Eth>, r: Local, i: nat, now: int, info: Info)
    requires ValidTopology(t) && Mirrors(t, s, self, ifs, r) && i < |ifs|
    ensures Shape(t, s) && ifs[i] in t.peer && i < |r.ports|
    ensures Follows(t, s, TakeDown(t, s, ifs[i], now, info), self, ifs, r,
                    DownLocal(r, i, PortKey(r.ports[i], t.peer[ifs[i]]), info, now), i)
  {
    hide Mirrors, OnlyAt, Follows, SpreadOwn, OwnLocal, X.Stop, F.Stop, ValidTopology;
    MirrorsFits(t, s, self, ifs, r, i);
    PeerFits(t, ifs[i]);
    var e, k, p := ifs[i], AreaNetwork.LinkKey(t, ifs[i]), r.ports[i];
    var db := r.db[k := HelloEntry(r.db, k, info, now)];
    MirrorsDb(t, s, self, ifs, r);
    var sa, ra := s.(db := s.db[self := db]), r.(db := db);
    DbMirrors(t, s, self, ifs, r, db);
    var q := p.(exch := X.Stop(p.exch));
    PortMirrors(t, sa, self, ifs, ra, i, q, s.net);
    var s1, r1 := s.(db := sa.db, exch := s.exch[e := X.Stop(s.exch[e])]), Local(db, r.ports[i := q]);
    assert s.flood[e := q.flood] == s.flood;
    OwnMirrors(t, s1, self, ifs, r1, k, info, now);
    var s2, r2 := SpreadOwn(t, s1, k, info, now), OwnLocal(r1, k, info, now);
    MirrorsFits(t, s2, self, ifs, r2, i);
    MirrorsDb(t, s2, self, ifs, r2);
    var q2 := r2.ports[i].(flood := F.Stop(r2.ports[i].flood));
    PortMirrors(t, s2, self, ifs, r2, i, q2, s2.net);
    assert s2.exch[e := q2.exch] == s2.exch;
    var s3 := s2.(flood := s2.flood[e := q2.flood]);
    OnlyAtTwice(t, s, sa, s1, self);
    OnlyAtTwice(t, s, s1, s2, self);
    OnlyAtTwice(t, s, s2, s3, self);
    ByPackets(t, s, s3, self, ifs, r, r2.(ports := r2.ports[i := q2]), i, []);
  }

  /** A step at one interface that changes its state and sends at most one packet. */
  lemma PortFollows(t: Topology, s: Sys, self: nat, ifs: seq<Eth>, r: Local, i: nat, p: Port, packets: seq<Msg>,
                    s': Sys)
    requires ValidTopology(t) && Mirrors(t, s, self, ifs, r) && i < |ifs| && |packets| <= 1
    requires p.me == ifs[i] && p.out == r.ports[i].out + packets && forall m :: m in packets ==> m.src == ifs[i]
    requires s'.db == s.db && s'.flood == s.flood[ifs[i] := p.flood] && s'.exch == s.exch[ifs[i] := p.exch]
    requires s'.net == if packets == [] then s.net else s.net + {packets[0]}
    ensures Follows(t, s, s', self, ifs, r, r.(ports := r.ports[i := p]), i)
  {
    hide Mirrors, OnlyAt, Follows, ValidTopology;
    MirrorsFits(t, s, self, ifs, r, i);
    MirrorsDb(t, s, self, ifs, r);
    PortMirrors(t, s, self, ifs, r, i, p, s'.net);
    ByPackets(t, s, s', self, ifs, r, r.(ports := r.ports[i := p]), i, packets);
  }

  lemma ReceivedFollows(t: Topology, s: Sys, self: nat, ifs: seq<Eth>, r: Local, i: nat, m: Msg, now: int)
    requires ValidTopology(t) && Mirrors(t, s, self, ifs, r) && i < |ifs| && m in s.net && t.peer[m.src] == ifs[i]
    ensures i < |r.ports| && Follows(t, s, Arrive(t, s, m, now), self, ifs, r, Received(r, self, i, m, now), i)
  {
    hide Mirrors, Follows, ValidTopology, OnFloodData, OnExData, FloodDataLocal, ExDataLocal, F.AckReceived,
      X.AckReceived;
    MirrorsFits(t, s, self, ifs, r, i);
    var e, p := ifs[i], r.ports[i];
    match m
    case FloodData(_, no, ls) => FloodDataFollows(t, s, self, ifs, r, i, no, ls, now);
    case ExData(_, no, ls, more) => ExDataFollows(t, s, self, ifs, r, i, no, ls, more, now);
    case FloodAck(_, no) =>
      var q := p.(flood := F.AckReceived(p.flood, no));
      PortFollows(t, s, self, ifs, r, i, q, [], s.(flood := s.flood[e := q.flood], exch := s.exch[e := q.exch]));
      assert s.exch[e := q.exch] == s.exch;
    case ExAck(_, no) =>
      var q := ExAcked(p, no);
      var packets := if q.exch.pkgNo == p.exch.pkgNo then [] else [ExPacket(e, q.exch)];
      PortFollows(t, s, self, ifs, r, i, q, packets, OnExAck(t, s, e, no).(flood := s.flood[e := q.flood]));
      assert s.flood[e := q.flood] == s.flood;
  }

  /**
    Every step of the area that happens at interface i of a router is what the
    router's handler does: afterwards the area mirrors the handler's new state, holds
    exactly the packets it has sent besides those it held, and no other router has
    changed.
   */
  lemma StepFollows(t: Topology, s: Sys, step: Step, self: nat, ifs: seq<Eth>, r: Local, i: nat)
    requires ValidTopology(t) && Mirrors(t, s, self, ifs, r) && i < |ifs| && Enabled(t, s, step)
    requires HappensAt(t, step, ifs[i])
    ensures i < |r.ports| && r.ports[i].me == ifs[i] && ifs[i] in t.peer
    ensures Follows(t, s, Apply(t, s, step), self, ifs, r, Handled(t, r, self, i, step), i)
  {
    hide Mirrors, Follows, ValidTopology, Received, Arrive, BringUp, TakeDown, UpLocal, DownLocal, SpreadOwn,
      OwnLocal, F.SendLsa, IsSnapshot;
    MirrorsFits(t, s, self, ifs, r, i);
    var e, p := ifs[i], r.ports[i];
    match step
    case Originate(k, info, age) =>
      OwnMirrors(t, s, self, ifs, r, k, info, age);
      ByPackets(t, s, SpreadOwn(t, s, k, info, age), self, ifs, r, OwnLocal(r, k, info, age), i, []);
    case SendTimer(_) =>
      var q := Flushed(p);
      assert s.exch[e := q.exch] == s.exch;
      PortFollows(t, s, self, ifs, r, i, q, [FloodData(e, q.flood.pkgNo, q.flood.buf)], Apply(t, s, step));
    case Resend(_) =>
      assert s.exch[e := p.exch] == s.exch && s.flood[e := p.flood] == s.flood;
      PortFollows(t, s, self, ifs, r, i, Resent(p), [FloodData(e, p.flood.pkgNo, p.flood.buf)], Apply(t, s, step));
    case ExResend(_) =>
      assert s.exch[e := p.exch] == s.exch && s.flood[e := p.flood] == s.flood;
      PortFollows(t, s, self, ifs, r, i, ExResent(p), [ExPacket(e, p.exch)], Apply(t, s, step));
    case Deliver(m, now) => ReceivedFollows(t, s, self, ifs, r, i, m, now);
    case LinkUp(_, now, info, snapshot) => BringUpFollows(t, s, self, ifs, r, i, now, info, snapshot);
    case LinkDown(_, now, info) => TakeDownFollows(t, s, self, ifs, r, i, now, info);
  }

  /** The area does not see the hello machine. */
  lemma HelloUnseen(t: Topology, s: Sys, s': Sys, self: nat, ifs: seq<Eth>, r: Local, r': Local, i: nat, h: Hello)
    requires Mirrors(t, s, self, ifs, r) && i < |ifs|
    ensures Mirrors(t, s, self, ifs, r.(ports := r.ports[i := r.ports[i].(hello := h)]))
    ensures Follows(t, s, s', self, ifs, r.(ports := r.ports[i := r.ports[i].(hello := h)]), r', i) ==>
              Follows(t, s, s', self, ifs, r, r', i)
  {
    hide OnlyAt;
  }

  /** A hello from the peer that finds the link down is the area's link-up step, with the state that the handler
      writes. */
  lemma HelloHighFollows(t: Topology, s: Sys, self: nat, ifs: seq<Eth>, r: Local, i: nat, addr: nat, metric: nat,
                         now: int, snapshot: seq<Lsa>)
    requires ValidTopology(t) && Mirrors(t, s, self, ifs, r) && i < |ifs| && !r.ports[i].hello.highUp
    ensures Shape(t, s) && i < |r.ports| && ifs[i] in t.peer
    ensures var from := t.peer[ifs[i]];
            var info := HelloInfo(r.db, PortKey(r.ports[i], from), addr, metric, true);
            Follows(t, s, BringUp(t, s, ifs[i], now, info, snapshot), self, ifs, r,
                    HelloHighLocal(r, i, from, addr, metric, now, snapshot), i)
  {
    hide Mirrors, Follows, ValidTopology, BringUp, UpLocal, HelloInfo;
    MirrorsFits(t, s, self, ifs, r, i);
    var from, p := t.peer[ifs[i]], r.ports[i];
    var info := HelloInfo(r.db, PortKey(p, from), addr, metric, true);
    var h := p.hello.(highUp := true, deadHighArmed := true, neighbor := from, notified := p.hello.notified + [true]);
    var s' := BringUp(t, s, ifs[i], now, info, snapshot);
    HelloUnseen(t, s, s', self, ifs, r, HelloHighLocal(r, i, from, addr, metric, now, snapshot), i, h);
    BringUpFollows(t, s, self, ifs, r.(ports := r.ports[i := p.(hello := h)]), i, now, info, snapshot);
  }

  /** A dead timer of a link to the peer is the area's link-down step. */
  lemma DeadHighFollows(t: Topology, s: Sys, self: nat, ifs: seq<Eth>, r: Local, i: nat, addr: nat, metric: nat,
                        now: int)
    requires ValidTopology(t) && Mirrors(t, s, self, ifs, r) && i < |ifs|
    requires i < |r.ports| && ifs[i] in t.peer && r.ports[i].hello.neighbor == t.peer[ifs[i]]
    ensures Shape(t, s)
    ensures var info := HelloInfo(r.db, PortKey(r.ports[i], t.peer[ifs[i]]), addr, metric, false);
            Follows(t, s, TakeDown(t, s, ifs[i], now, info), self, ifs, r, DeadHighLocal(r, i, addr, metric, now), i)
  {
    hide Mirrors, Follows, ValidTopology, TakeDown, DownLocal, HelloInfo;
    MirrorsFits(t, s, self, ifs, r, i);
    var p := r.ports[i];
    var info := HelloInfo(r.db, PortKey(p, t.peer[ifs[i]]), addr, metric, false);
    var h := p.hello.(highUp := false, deadHighArmed := false, notified := p.hello.notified + [false]);
    var s' := TakeDown(t, s, ifs[i], now, info);
    HelloUnseen(t, s, s', self, ifs, r, DeadHighLocal(r, i, addr, metric, now), i, h);
    TakeDownFollows(t, s, self, ifs, r.(ports := r.ports[i := p.(hello := h)]), i, now, info);
  }
}

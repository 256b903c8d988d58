/**
  An area of routers that run hello, exchange and flooding over a network that
  may lose, duplicate and reorder packets: states, steps and runs.
 */
module AreaNetwork {
  import opened LinkStates
  import F = FloodLink
  import X = ExchangeLink

  /** `peer` joins the two interfaces of each link. */
  datatype Topology = Topology(routers: set<nat>, peer: map<Eth, Eth>)

  /** Packets are told apart by the interface they came from, which lsd_receive finds by neighbour id. */
  predicate ValidTopology(t: Topology) {
    forall e :: e in t.peer ==> e.rt in t.routers && t.peer[e] in t.peer && t.peer[t.peer[e]] == e && t.peer[e] != e
  }

  lemma PeerFits(t: Topology, e: Eth)
    requires ValidTopology(t) && e in t.peer
    ensures e.rt in t.routers && t.peer[e] in t.peer && t.peer[e].rt in t.routers && t.peer[t.peer[e]] == e
    ensures t.peer[e] != e
  {
  }

  /** Packets; `src` is the interface they were sent from and they arrive at its peer. */
  datatype Msg =
    | FloodData(src: Eth, no: nat, lsas: seq<Lsa>)
    | FloodAck(src: Eth, no: nat)
    | ExData(src: Eth, no: nat, lsas: seq<Lsa>, more: bool)
    | ExAck(src: Eth, no: nat)

  /** `net` holds every packet ever sent: each may be delivered any number of times, at any time, or never. */
  datatype Sys = Sys(db: map<nat, Db>, flood: map<Eth, F.Flood>, exch: map<Eth, X.Exchange>, net: set<Msg>)

  predicate Shape(t: Topology, s: Sys) {
    && s.db.Keys == t.routers
    && s.flood.Keys == t.peer.Keys
    && s.exch.Keys == t.peer.Keys
    && (forall m :: m in s.net ==> m.src in t.peer)
  }

  /** Every router starts with links of its own only and every interface terminated. */
  predicate Init(t: Topology, s: Sys) {
    && Shape(t, s)
    && s.net == {}
    && (forall r, k :: r in t.routers && k in s.db[r] ==> k.rt == r)
    && (forall e :: e in t.peer ==> s.flood[e] == F.INITIAL && s.exch[e] == X.INITIAL)
  }

  /** flood_add_flood_lsa on every interface of router r other than those in `except`. */
  function Spread(flood: map<Eth, F.Flood>, r: nat, l: Lsa, except: set<Eth>): map<Eth, F.Flood> {
    map e | e in flood :: if e.rt == r && e !in except then F.Enqueue(flood[e], l) else flood[e]
  }

  /** One advertisement arriving at interface f. */
  function Receive(t: Topology, s: Sys, f: Eth, l: Lsa, now: int): (s': Sys)
    requires ValidTopology(t) && Shape(t, s) && f in t.peer
    ensures Shape(t, s')
  {
    var o := Accept(s.db[f.rt], f.rt, l, now);
    var s1 := s.(db := s.db[f.rt := o.db]);
    match o.reaction
    case Silent => s1
    case Forward(l') => s1.(flood := Spread(s.flood, f.rt, l', {f}))
    case Back(l') => s1.(flood := s.flood[f := F.Enqueue(s.flood[f], l')])
  }

  function ReceiveAll(t: Topology, s: Sys, f: Eth, ls: seq<Lsa>, now: int): (s': Sys)
    requires ValidTopology(t) && Shape(t, s) && f in t.peer
    ensures Shape(t, s')
    decreases |ls|
  {
    if ls == [] then s else ReceiveAll(t, Receive(t, s, f, ls[0], now), f, ls[1..], now)
  }

  /** The entry a router writes for a link of its own: a new one starts at 1, an old one advances by 1. */
  function OwnEntry(db: Db, k: Key, info: Info, age: int): Entry {
    if k in db then Entry(info, db[k].num + 1, db[k].age) else Entry(info, 1, age)
  }

  /** flood_spread_backbone_link_state, flood_spread_access_link_state and spread_local_link_state. */
  function SpreadOwn(t: Topology, s: Sys, k: Key, info: Info, age: int): (s': Sys)
    requires Shape(t, s) && k.rt in t.routers
    ensures Shape(t, s')
  {
    var entry := OwnEntry(s.db[k.rt], k, info, age);
    s.(db := s.db[k.rt := s.db[k.rt][k := entry]],
       flood := Spread(s.flood, k.rt, ToLsa(k, entry), {}))
  }

  function LinkKey(t: Topology, e: Eth): Key
    requires e in t.peer && t.peer[e] in t.peer
  {
    Key(e.rt, e.ifid, t.peer[e].rt, t.peer[e].ifid)
  }

  /** The first write of hello_changed_handler: an existing entry keeps its sequence number. */
  function HelloEntry(db: Db, k: Key, info: Info, now: int): Entry {
    Entry(info, if k in db then db[k].num else 0, now)
  }

  /** `snapshot` lists each entry of the database once. */
  predicate IsSnapshot(db: Db, snapshot: seq<Lsa>) {
    && |snapshot| == |db|
    && (forall i :: 0 <= i < |snapshot| ==>
        snapshot[i].key in db && snapshot[i] == ToLsa(snapshot[i].key, db[snapshot[i].key]))
    && (forall k :: k in db ==> ToLsa(k, db[k]) in snapshot)
  }

  function ExPacket(e: Eth, x: X.Exchange): Msg {
    ExData(e, x.pkgNo, x.buf, x.rest != [])
  }

  datatype Step =
    | Originate(key: Key, info: Info, age: int)
    | SendTimer(e: Eth)
    | Resend(e: Eth)
    | ExResend(e: Eth)
    | Deliver(m: Msg, now: int)
    | LinkUp(e: Eth, now: int, info: Info, snapshot: seq<Lsa>)
    | LinkDown(e: Eth, now: int, info: Info)

  predicate Enabled(t: Topology, s: Sys, step: Step)
    requires ValidTopology(t) && Shape(t, s)
  {
    match step
    case Originate(k, _, _) => k.rt in t.routers
    case SendTimer(e) => e in t.peer && s.flood[e].sndArmed
    case Resend(e) => e in t.peer && s.flood[e].ackArmed
    case ExResend(e) => e in t.peer && s.exch[e].ackArmed
    case Deliver(m, _) => m in s.net
    case LinkUp(e, now, info, snapshot) =>
      && e in t.peer
      && s.exch[e].send == X.SendTerminated
      && s.flood[e].phase == F.Terminated
      && IsSnapshot(s.db[e.rt][LinkKey(t, e) := HelloEntry(s.db[e.rt], LinkKey(t, e), info, now)], snapshot)
    case LinkDown(e, _, _) => e in t.peer && s.flood[e].phase != F.Terminated
  }

  function Apply(t: Topology, s: Sys, step: Step): (s': Sys)
    requires ValidTopology(t) && Shape(t, s) && Enabled(t, s, step)
    ensures Shape(t, s')
  {
    match step
    case Originate(k, info, age) => SpreadOwn(t, s, k, info, age)
    case SendTimer(e) =>
      var f := F.SendLsa(s.flood[e]);
      s.(flood := s.flood[e := f], net := s.net + {FloodData(e, f.pkgNo, f.buf)})
    case Resend(e) => s.(net := s.net + {FloodData(e, s.flood[e].pkgNo, s.flood[e].buf)})
    case ExResend(e) => s.(net := s.net + {ExPacket(e, s.exch[e])})
    case Deliver(m, now) => Arrive(t, s, m, now)
    case LinkUp(e, now, info, snapshot) => BringUp(t, s, e, now, info, snapshot)
    case LinkDown(e, now, info) => TakeDown(t, s, e, now, info)
  }

  /** The connect branch of hello_changed_handler: write the entry, start exchange and flooding, advertise. */
  function BringUp(t: Topology, s: Sys, e: Eth, now: int, info: Info, snapshot: seq<Lsa>): (s': Sys)
    requires ValidTopology(t) && Shape(t, s) && e in t.peer
    ensures Shape(t, s')
  {
    var k := LinkKey(t, e);
    var x := X.Start(s.exch[e], snapshot);
    var s1 := Sys(s.db[e.rt := s.db[e.rt][k := HelloEntry(s.db[e.rt], k, info, now)]],
                  s.flood[e := F.Start(s.flood[e])],
                  s.exch[e := x],
                  s.net + {ExPacket(e, x)});
    SpreadOwn(t, s1, k, info, now)
  }

  /** The disconnect branch: write the entry, end the exchange, advertise, end flooding. */
  function TakeDown(t: Topology, s: Sys, e: Eth, now: int, info: Info): (s': Sys)
    requires ValidTopology(t) && Shape(t, s) && e in t.peer
    ensures Shape(t, s')
  {
    var k := LinkKey(t, e);
    var s1 := s.(db := s.db[e.rt := s.db[e.rt][k := HelloEntry(s.db[e.rt], k, info, now)]],
                 exch := s.exch[e := X.Stop(s.exch[e])]);
    var s2 := SpreadOwn(t, s1, k, info, now);
    s2.(flood := s2.flood[e := F.Stop(s2.flood[e])])
  }

  /** A flood data packet at interface f: take it all in and acknowledge it. */
  function OnFloodData(t: Topology, s: Sys, f: Eth, no: nat, lsas: seq<Lsa>, now: int): (s': Sys)
    requires ValidTopology(t) && Shape(t, s) && f in t.peer
    ensures Shape(t, s')
  {
    var s1 := ReceiveAll(t, s, f, lsas, now);
    s1.(net := s1.net + {FloodAck(f, no)})
  }

  /** An exchange data packet at interface f: the same, but only while it listens. */
  function OnExData(t: Topology, s: Sys, f: Eth, no: nat, lsas: seq<Lsa>, more: bool, now: int): (s': Sys)
    requires ValidTopology(t) && Shape(t, s) && f in t.peer
    ensures Shape(t, s')
  {
    var x := X.DataReceived(s.exch[f], lsas, more);
    if X.Listens(s.exch[f], lsas) then
      var s1 := ReceiveAll(t, s, f, lsas, now);
      s1.(net := s1.net + {ExAck(f, no)}, exch := s1.exch[f := x])
    else
      s.(exch := s.exch[f := x])
  }

  /** An exchange acknowledgement at interface f, which may send the next packet. */
  function OnExAck(t: Topology, s: Sys, f: Eth, no: nat): (s': Sys)
    requires Shape(t, s) && f in t.peer
    ensures Shape(t, s')
  {
    var x := X.AckReceived(s.exch[f], no);
    s.(exch := s.exch[f := x],
       net := if x.pkgNo == s.exch[f].pkgNo then s.net else s.net + {ExPacket(f, x)})
  }

  function Arrive(t: Topology, s: Sys, m: Msg, now: int): (s': Sys)
    requires ValidTopology(t) && Shape(t, s) && m in s.net
    ensures Shape(t, s')
  {
    var f := t.peer[m.src];
    match m
    case FloodData(_, no, lsas) => OnFloodData(t, s, f, no, lsas, now)
    case FloodAck(_, no) => s.(flood := s.flood[f := F.AckReceived(s.flood[f], no)])
    case ExData(_, no, lsas, more) => OnExData(t, s, f, no, lsas, more, now)
    case ExAck(_, no) => OnExAck(t, s, f, no)
  }

  predicate Next(t: Topology, s: Sys, s': Sys, step: Step)
    requires ValidTopology(t)
  {
    Shape(t, s) && Enabled(t, s, step) && s' == Apply(t, s, step)
  }

  /** A finite run: states joined by steps. */
  ghost predicate Run(t: Topology, states: seq<Sys>, steps: seq<Step>)
    requires ValidTopology(t)
  {
    && |states| == |steps| + 1
    && Init(t, states[0])
    && (forall i :: 0 <= i < |steps| ==> Next(t, states[i], states[i + 1], steps[i]))
  }
}

/**
  What every handler of a zone keeps of its interfaces (lsd/lsd_hello.c,
  lsd/lsd_flood.c, lsd/lsd_exchange.c): timers and protocols follow the link status.
 */
module ZoneInvariant {
  import opened LinkStates
  import opened AreaNetwork
  import opened BackboneEths
  import opened Zones
  import opened ZoneSteps
  import F = FloodLink
  import X = ExchangeLink

  /** Timers and protocols follow the status, the neighbour is the far end, and packets carry their source. */
  predicate PortSound(p: Port, far: Eth) {
    && (p.hello.deadHighArmed <==> p.hello.highUp)
    && (p.hello.deadLowArmed <==> p.hello.lowUp)
    && (p.hello.highUp || p.hello.lowUp ==> p.hello.neighbor == far)
    && (p.exch.send == X.SendTerminated <==> !p.hello.highUp)
    && (p.flood.phase == F.Terminated <==> !p.hello.highUp)
    && F.Valid(p.flood)
    && (forall m :: m in p.out ==> m.src == p.me)
  }

  predicate LocalSound(t: Topology, r: Local) {
    forall i :: 0 <= i < |r.ports| ==> r.ports[i].me in t.peer && PortSound(r.ports[i], t.peer[r.ports[i].me])
  }

  /** The router has the interfaces it had, and they are sound. */
  predicate Kept(t: Topology, r: Local, r': Local) {
    && LocalSound(t, r') && |r'.ports| == |r.ports|
    && (forall i :: 0 <= i < |r.ports| ==> r'.ports[i].me == r.ports[i].me)
  }

  lemma PortKept(t: Topology, r: Local, i: nat, p: Port)
    requires LocalSound(t, r) && i < |r.ports| && p.me == r.ports[i].me && PortSound(p, t.peer[p.me])
    ensures Kept(t, r, r.(ports := r.ports[i := p]))
  {
  }

  lemma QueuedSound(p: Port, far: Eth, l: Lsa)
    requires PortSound(p, far)
    ensures PortSound(Queued(p, l), far)
  {
  }

  lemma SpreadKept(t: Topology, r: Local, db: Db, l: Lsa, except: nat)
    requires LocalSound(t, r)
    ensures Kept(t, r, Local(db, SpreadLocal(r.ports, l, except)))
  {
    hide PortSound, Queued;
    forall j | 0 <= j < |r.ports|
      ensures Queued(r.ports[j], l).me == r.ports[j].me && PortSound(Queued(r.ports[j], l), t.peer[r.ports[j].me])
    {
      QueuedSound(r.ports[j], t.peer[r.ports[j].me], l);
      QueuedSame(r.ports[j], l);
    }
  }

  lemma QueuedSame(p: Port, l: Lsa)
    ensures Queued(p, l) == p.(flood := F.Enqueue(p.flood, l))
  {
  }

  lemma OwnKept(t: Topology, r: Local, k: Key, info: Info, age: int)
    requires LocalSound(t, r)
    ensures Kept(t, r, OwnLocal(r, k, info, age))
  {
    var entry := OwnEntry(r.db, k, info, age);
    SpreadKept(t, r, r.db[k := entry], ToLsa(k, entry), |r.ports|);
  }

  lemma AcceptKept(t: Topology, r: Local, self: nat, i: nat, l: Lsa, now: int)
    requires LocalSound(t, r) && i < |r.ports|
    ensures Kept(t, r, AcceptLocal(r, self, i, l, now))
  {
    hide PortSound, SpreadLocal;
    var o := Accept(r.db, self, l, now);
    match o.reaction
    case Silent =>
    case Forward(l') => SpreadKept(t, r, o.db, l', i);
    case Back(l') =>
      QueuedSound(r.ports[i], t.peer[r.ports[i].me], l');
      PortKept(t, r, i, Queued(r.ports[i], l'));
  }

  lemma {:induction false} AcceptAllKept(t: Topology, r: Local, self: nat, i: nat, ls: seq<Lsa>, now: int)
    requires LocalSound(t, r) && i < |r.ports|
    ensures Kept(t, r, AcceptAllLocal(r, self, i, ls, now))
    decreases |ls|
  {
    hide PortSound, AcceptLocal;
    if ls != [] {
      AcceptKept(t, r, self, i, ls[0], now);
      AcceptAllKept(t, AcceptLocal(r, self, i, ls[0], now), self, i, ls[1..], now);
    }
  }

  lemma FloodDataKept(t: Topology, r: Local, self: nat, i: nat, no: nat, ls: seq<Lsa>, now: int)
    requires LocalSound(t, r) && i < |r.ports|
    ensures Kept(t, r, FloodDataLocal(r, self, i, no, ls, now))
  {
    hide AcceptAllLocal;
    var p := Sends(r.ports[i], FloodAck(r.ports[i].me, no));
    PortKept(t, r, i, p);
    AcceptAllKept(t, r.(ports := r.ports[i := p]), self, i, ls, now);
  }

  lemma ExDataKept(t: Topology, r: Local, self: nat, i: nat, no: nat, ls: seq<Lsa>, more: bool, now: int)
    requires LocalSound(t, r) && i < |r.ports|
    ensures Kept(t, r, ExDataLocal(r, self, i, no, ls, more, now))
  {
    hide AcceptAllLocal;
    PortKept(t, r, i, Heard(r.ports[i]));
    var r1 := r.(ports := r.ports[i := Heard(r.ports[i])]);
    if X.Listens(r.ports[i].exch, ls) {
      AcceptAllKept(t, r1, self, i, ls, now);
      var r2 := AcceptAllLocal(r1, self, i, ls, now);
      PortKept(t, r2, i, Answered(r2.ports[i], no, more));
    }
  }

  /** A link that is marked up but not yet started. */
  lemma UpKept(t: Topology, r: Local, i: nat, k: Key, info: Info, now: int, snapshot: seq<Lsa>)
    requires i < |r.ports|
    requires LocalSound(t, r.(ports := r.ports[i := Started(r.ports[i], snapshot)]))
    ensures Kept(t, r, UpLocal(r, i, k, info, now, snapshot))
  {
    hide PortSound, SpreadLocal, Started;
    var db := r.db[k := HelloEntry(r.db, k, info, now)];
    var r1 := Local(db, r.ports[i := Started(r.ports[i], snapshot)]);
    var entry := OwnEntry(db, k, info, now);
    StartedSame(r.ports[i], snapshot);
    SpreadKept(t, r1, db[k := entry], ToLsa(k, entry), |r.ports|);
  }

  lemma StartedSame(p: Port, snapshot: seq<Lsa>)
    ensures Started(p, snapshot).me == p.me
  {
  }

  lemma StartedSound(p: Port, far: Eth, snapshot: seq<Lsa>)
    requires p.hello.highUp && p.hello.deadHighArmed && p.hello.neighbor == far
    requires (p.hello.deadLowArmed <==> p.hello.lowUp) && F.Valid(p.flood) && forall m :: m in p.out ==> m.src == p.me
    ensures PortSound(Started(p, snapshot), far)
  {
  }

  lemma HelloHighKept(t: Topology, r: Local, i: nat, addr: nat, metric: nat, now: int, snapshot: seq<Lsa>)
    requires LocalSound(t, r) && i < |r.ports|
    ensures Kept(t, r, HelloHighLocal(r, i, t.peer[r.ports[i].me], addr, metric, now, snapshot))
  {
    hide UpLocal, Started, HelloInfo;
    var p, from := r.ports[i], t.peer[r.ports[i].me];
    if !p.hello.highUp {
      var h := p.hello.(highUp := true, deadHighArmed := true, neighbor := from, notified := p.hello.notified + [true]);
      var q := p.(hello := h);
      StartedSound(q, from, snapshot);
      StartedSame(q, snapshot);
      PortKept(t, r, i, Started(q, snapshot));
      var r1 := r.(ports := r.ports[i := q]);
      assert r1.ports[i := Started(q, snapshot)] == r.ports[i := Started(q, snapshot)];
      var k := PortKey(p, from);
      UpKept(t, r1, i, k, HelloInfo(r.db, k, addr, metric, true), now, snapshot);
    }
  }

  lemma DeadHighKept(t: Topology, r: Local, i: nat, addr: nat, metric: nat, now: int)
    requires LocalSound(t, r) && i < |r.ports|
    ensures Kept(t, r, DeadHighLocal(r, i, addr, metric, now))
  {
    hide HelloInfo;
    var p, r' := r.ports[i], DeadHighLocal(r, i, addr, metric, now);
    forall j | 0 <= j < |r.ports|
      ensures r'.ports[j].me == r.ports[j].me && PortSound(r'.ports[j], t.peer[r.ports[j].me])
    {
    }
  }

  lemma LowKept(t: Topology, r: Local, i: nat)
    requires LocalSound(t, r) && i < |r.ports|
    ensures Kept(t, r, HelloLowLocal(r, i, t.peer[r.ports[i].me]))
    ensures Kept(t, r, DeadLowLocal(r, i))
  {
  }

  lemma TimersKept(t: Topology, r: Local, i: nat)
    requires LocalSound(t, r) && i < |r.ports|
    ensures r.ports[i].flood.sndArmed ==> Kept(t, r, r.(ports := r.ports[i := Flushed(r.ports[i])]))
    ensures Kept(t, r, r.(ports := r.ports[i := Resent(r.ports[i])]))
    ensures Kept(t, r, r.(ports := r.ports[i := ExResent(r.ports[i])]))
  {
  }

  lemma ReceivedKept(t: Topology, r: Local, self: nat, i: nat, m: Msg, now: int)
    requires LocalSound(t, r) && i < |r.ports|
    ensures Kept(t, r, Received(r, self, i, m, now))
  {
    hide FloodDataLocal, ExDataLocal;
    match m
    case FloodData(_, no, ls) => FloodDataKept(t, r, self, i, no, ls, now);
    case ExData(_, no, ls, more) => ExDataKept(t, r, self, i, no, ls, more, now);
    case _ =>
  }
}

/**
  Whole runs of an area whose routers are zones: each act is a handler call at one
  router, and what a router sends its peers may receive. Such a run is a run of the
  area, so its routers converge and lose no sequence number.
 */
module ZoneRuns {
  import opened LinkStates
  import opened Sequences
  import opened AreaNetwork
  import opened AreaConvergence
  import opened AreaSafety
  import opened BackboneEths
  import opened Zones
  import opened ZoneSteps
  import opened ZoneInvariant
  import F = FloodLink
  import X = ExchangeLink

  /** The interfaces of each router, in the order of its list. */
  type Wiring = map<nat, seq<Eth>>

  ghost predicate Wired(t: Topology, ifs: Wiring) {
    && ValidTopology(t) && ifs.Keys == t.routers
    && (forall r :: r in ifs ==> Interfaces(t, r, ifs[r]))
    && (forall e :: e in t.peer ==> e.rt in ifs && e in ifs[e.rt])
  }

  /** The routers of an area, each as its zone sees itself. */
  type Routers = map<nat, Local>

  /** Every router has its interfaces, and they are sound. */
  ghost predicate Sound(t: Topology, ifs: Wiring, a: Routers) {
    && a.Keys == ifs.Keys
    && forall r :: r in a ==> LocalSound(t, a[r]) && HasPorts(a[r], ifs[r])
  }

  predicate HasPorts(r: Local, es: seq<Eth>) {
    |r.ports| == |es| && forall i :: 0 <= i < |es| ==> r.ports[i].me == es[i]
  }

  /** Where interface e stands in the list of its router. */
  ghost function Slot(ifs: Wiring, e: Eth): (i: nat)
    requires e.rt in ifs && e in ifs[e.rt]
    ensures i < |ifs[e.rt]| && ifs[e.rt][i] == e
  {
    var i :| 0 <= i < |ifs[e.rt]| && ifs[e.rt][i] == e;
    i
  }

  ghost function PortOf(t: Topology, ifs: Wiring, a: Routers, e: Eth): Port
    requires Wired(t, ifs) && Sound(t, ifs, a) && e in t.peer
  {
    a[e.rt].ports[Slot(ifs, e)]
  }

  /** What a router has ever sent. */
  function SentBy(r: Local): set<Msg> {
    set i, m | 0 <= i < |r.ports| && m in r.ports[i].out :: m
  }

  function Packets(a: Routers): set<Msg> {
    set r, m | r in a && m in SentBy(a[r]) :: m
  }

  /** The state of the area that the routers make up. */
  ghost function SysOf(t: Topology, ifs: Wiring, a: Routers): (s: Sys)
    requires Wired(t, ifs) && Sound(t, ifs, a)
  {
    Sys(map r | r in t.routers :: a[r].db,
        map e | e in t.peer :: PortOf(t, ifs, a, e).flood,
        map e | e in t.peer :: PortOf(t, ifs, a, e).exch,
        Packets(a))
  }

  /** Handler calls: an origination, a timer or delivery of the area, and the hello machine. */
  datatype Act =
    | Own(key: Key, info: Info, age: int)
    | At(step: Step)
    | HelloHigh(e: Eth, addr: nat, metric: nat, now: int, snapshot: seq<Lsa>)
    | DeadHigh(e: Eth, addr: nat, metric: nat, now: int)
    | HelloLow(e: Eth)
    | DeadLow(e: Eth)

  /** The interface at which a handler other than an origination is called. */
  function Place(t: Topology, act: Act): Eth
    requires act.At? ==> act.step.Deliver? ==> act.step.m.src in t.peer
  {
    match act
    case At(SendTimer(e)) => e
    case At(Resend(e)) => e
    case At(ExResend(e)) => e
    case At(Deliver(m, _)) => t.peer[m.src]
    case HelloHigh(e, _, _, _, _) => e
    case DeadHigh(e, _, _, _) => e
    case HelloLow(e) => e
    case DeadLow(e) => e
    case _ => Eth(0, 0)
  }

  /** The handler may be called: its timer is pending, its packet was sent, its snapshot lists the database. */
  ghost predicate Able(t: Topology, ifs: Wiring, a: Routers, act: Act)
    requires Wired(t, ifs) && Sound(t, ifs, a)
  {
    match act
    case Own(k, _, _) => k.rt in t.routers
    case At(SendTimer(e)) => e in t.peer && PortOf(t, ifs, a, e).flood.sndArmed
    case At(Resend(e)) => e in t.peer && PortOf(t, ifs, a, e).flood.ackArmed
    case At(ExResend(e)) => e in t.peer && PortOf(t, ifs, a, e).exch.ackArmed
    case At(Deliver(m, _)) => m in Packets(a) && m.src in t.peer
    case At(_) => false
    case HelloHigh(e, addr, metric, now, snapshot) =>
      && e in t.peer
      && var db, k := a[e.rt].db, PortKey(PortOf(t, ifs, a, e), t.peer[e]);
         (!PortOf(t, ifs, a, e).hello.highUp ==>
            IsSnapshot(db[k := HelloEntry(db, k, HelloInfo(db, k, addr, metric, true), now)], snapshot))
    case DeadHigh(e, _, _, _) => e in t.peer && PortOf(t, ifs, a, e).hello.deadHighArmed
    case HelloLow(e) => e in t.peer
    case DeadLow(e) => e in t.peer && PortOf(t, ifs, a, e).hello.deadLowArmed
  }

  /** The router at which the handler is called. */
  function Self(t: Topology, act: Act): nat
    requires act.At? ==> act.step.Deliver? ==> act.step.m.src in t.peer
  {
    if act.Own? then act.key.rt else Place(t, act).rt
  }

  /** What the handler makes of its router, called at interface i. */
  function Does(t: Topology, r: Local, i: nat, act: Act): Local
    requires act.At? ==> !act.step.LinkUp? && !act.step.LinkDown? && !act.step.Originate?
    requires act.At? ==> act.step.Deliver? ==> act.step.m.src in t.peer
    requires !act.Own? ==> i < |r.ports| && Place(t, act) in t.peer
  {
    match act
    case Own(k, info, age) => OwnLocal(r, k, info, age)
    case At(step) => Handled(t, r, Self(t, act), i, step)
    case HelloHigh(e, addr, metric, now, snapshot) => HelloHighLocal(r, i, t.peer[e], addr, metric, now, snapshot)
    case DeadHigh(_, addr, metric, now) => DeadHighLocal(r, i, addr, metric, now)
    case HelloLow(e) => HelloLowLocal(r, i, t.peer[e])
    case DeadLow(_) => DeadLowLocal(r, i)
  }

  ghost function After(t: Topology, ifs: Wiring, a: Routers, act: Act): Routers
    requires Wired(t, ifs) && Sound(t, ifs, a) && Able(t, ifs, a, act)
  {
    var self := Self(t, act);
    if act.Own? then a[self := Does(t, a[self], 0, act)]
    else
      PlaceFits(t, ifs, a, act);
      a[self := Does(t, a[self], Slot(ifs, Place(t, act)), act)]
  }

  lemma PlaceFits(t: Topology, ifs: Wiring, a: Routers, act: Act)
    requires Wired(t, ifs) && Sound(t, ifs, a) && Able(t, ifs, a, act) && !act.Own?
    ensures var e := Place(t, act);
            && e in t.peer && e.rt in ifs && e.rt in a && e in ifs[e.rt]
            && Slot(ifs, e) < |a[e.rt].ports| && a[e.rt].ports[Slot(ifs, e)].me == e
  {
  }

  // ----- one act -----

  /** A handler keeps its router sound. */
  lemma ActKept(t: Topology, r: Local, i: nat, act: Act)
    requires LocalSound(t, r)
    requires act.At? ==> !act.step.LinkUp? && !act.step.LinkDown? && !act.step.Originate?
    requires act.At? ==> act.step.Deliver? ==> act.step.m.src in t.peer
    requires !act.Own? ==> i < |r.ports| && Place(t, act) in t.peer && r.ports[i].me == Place(t, act)
    requires act.At? && act.step.SendTimer? ==> r.ports[i].flood.sndArmed
    ensures Kept(t, r, Does(t, r, i, act))
  {
    hide PortSound, LocalSound, Kept, OwnLocal, HelloHighLocal, DeadHighLocal, HelloLowLocal, DeadLowLocal, Received;
    match act
    case Own(k, info, age) => OwnKept(t, r, k, info, age);
    case At(Deliver(m, now)) => ReceivedKept(t, r, Self(t, act), i, m, now);
    case At(_) => TimersKept(t, r, i);
    case HelloHigh(_, addr, metric, now, snapshot) => HelloHighKept(t, r, i, addr, metric, now, snapshot);
    case DeadHigh(_, addr, metric, now) => DeadHighKept(t, r, i, addr, metric, now);
    case HelloLow(_) => LowKept(t, r, i);
    case DeadLow(_) => LowKept(t, r, i);
  }

  lemma SoundAfter(t: Topology, ifs: Wiring, a: Routers, act: Act)
    requires Wired(t, ifs) && Sound(t, ifs, a) && Able(t, ifs, a, act)
    ensures Sound(t, ifs, After(t, ifs, a, act))
  {
    hide LocalSound, Does;
    var self := Self(t, act);
    if act.Own? {
      ActKept(t, a[self], 0, act);
      SoundWith(t, ifs, a, self, Does(t, a[self], 0, act));
    } else {
      PlaceFits(t, ifs, a, act);
      var i := Slot(ifs, Place(t, act));
      ActKept(t, a[self], i, act);
      SoundWith(t, ifs, a, self, Does(t, a[self], i, act));
    }
  }

  lemma SoundWith(t: Topology, ifs: Wiring, a: Routers, self: nat, r: Local)
    requires Sound(t, ifs, a) && self in a && Kept(t, a[self], r)
    ensures Sound(t, ifs, a[self := r])
  {
    hide LocalSound;
  }

  // ----- an act is a step of the area, or none -----

  lemma SlotIs(t: Topology, ifs: Wiring, r: nat, i: nat)
    requires Wired(t, ifs) && r in ifs && i < |ifs[r]|
    ensures var e := ifs[r][i]; e in t.peer && e.rt == r && e in ifs[r] && Slot(ifs, e) == i
  {
    assert Interfaces(t, r, ifs[r]);
  }

  lemma PacketsFit(t: Topology, ifs: Wiring, a: Routers)
    requires Wired(t, ifs) && Sound(t, ifs, a)
    ensures forall m :: m in Packets(a) ==> m.src in t.peer
  {
  }

  /** Each router is mirrored by the area that the routers make up. */
  lemma SysMirrors(t: Topology, ifs: Wiring, a: Routers, self: nat)
    requires Wired(t, ifs) && Sound(t, ifs, a) && self in a
    ensures Shape(t, SysOf(t, ifs, a)) && Mirrors(t, SysOf(t, ifs, a), self, ifs[self], a[self])
  {
    hide LocalSound, Packets, Slot;
    PacketsFit(t, ifs, a);
    var s := SysOf(t, ifs, a);
    forall i | 0 <= i < |ifs[self]|
      ensures s.flood[ifs[self][i]] == a[self].ports[i].flood && s.exch[ifs[self][i]] == a[self].ports[i].exch
    {
      SlotIs(t, ifs, self, i);
    }
    assert Interfaces(t, self, ifs[self]);
  }

  /** Changing one router changes the area there only. */
  lemma SysOnlyAt(t: Topology, ifs: Wiring, a: Routers, self: nat, r: Local)
    requires Wired(t, ifs) && Sound(t, ifs, a) && self in a && Sound(t, ifs, a[self := r])
    ensures OnlyAt(t, SysOf(t, ifs, a), SysOf(t, ifs, a[self := r]), self)
  {
    hide Wired, Sound, SysOf, PortOf;
    SysShape(t, ifs, a);
    SysShape(t, ifs, a[self := r]);
    forall e | e in t.peer && e.rt != self
      ensures PortOf(t, ifs, a, e) == PortOf(t, ifs, a[self := r], e)
    {
      PortElsewhere(t, ifs, a, self, r, e);
    }
  }

  lemma SysShape(t: Topology, ifs: Wiring, a: Routers)
    requires Wired(t, ifs) && Sound(t, ifs, a)
    ensures var s := SysOf(t, ifs, a);
            && Shape(t, s) && a.Keys == t.routers && (forall r :: r in t.routers ==> s.db[r] == a[r].db)
            && (forall e :: e in t.peer ==>
                  s.flood[e] == PortOf(t, ifs, a, e).flood && s.exch[e] == PortOf(t, ifs, a, e).exch)
  {
    hide LocalSound, HasPorts, Packets, PortOf, Interfaces;
    PacketsFit(t, ifs, a);
  }

  lemma SysNet(t: Topology, ifs: Wiring, a: Routers)
    requires Wired(t, ifs) && Sound(t, ifs, a)
    ensures SysOf(t, ifs, a).net == Packets(a)
  {
  }

  lemma PortElsewhere(t: Topology, ifs: Wiring, a: Routers, self: nat, r: Local, e: Eth)
    requires Wired(t, ifs) && Sound(t, ifs, a) && self in a && Sound(t, ifs, a[self := r]) && e in t.peer
    requires e.rt != self
    ensures PortOf(t, ifs, a, e) == PortOf(t, ifs, a[self := r], e)
  {
  }

  /** A changed router that the area mirrors fixes its state. */
  lemma MirroredOnce(t: Topology, s0: Sys, s: Sys, s': Sys, self: nat, es: seq<Eth>, r: Local)
    requires Mirrors(t, s, self, es, r) && Mirrors(t, s', self, es, r)
    requires OnlyAt(t, s0, s, self) && OnlyAt(t, s0, s', self) && s.net == s'.net
    requires forall e :: e in t.peer ==> e.rt in t.routers && (e.rt == self ==> e in es)
    ensures s == s'
  {
    forall e | e in t.peer
      ensures s.flood[e] == s'.flood[e] && s.exch[e] == s'.exch[e]
    {
      if e.rt == self {
        var i :| 0 <= i < |es| && es[i] == e;
        assert s.flood[es[i]] == r.ports[i].flood && s'.flood[es[i]] == r.ports[i].flood;
      }
    }
    assert s.db == s'.db && s.flood == s'.flood && s.exch == s'.exch;
  }

  /** A state that mirrors the changed router, and is otherwise as before, is what the routers then make up. */
  lemma Becomes(t: Topology, ifs: Wiring, a: Routers, self: nat, r: Local, s: Sys)
    requires Wired(t, ifs) && Sound(t, ifs, a) && self in a && Sound(t, ifs, a[self := r])
    requires Mirrors(t, s, self, ifs[self], r) && OnlyAt(t, SysOf(t, ifs, a), s, self)
    requires s.net == Packets(a[self := r])
    ensures s == SysOf(t, ifs, a[self := r])
  {
    hide Mirrors, OnlyAt, Packets, LocalSound, HasPorts, SysOf;
    SysShape(t, ifs, a);
    SysShape(t, ifs, a[self := r]);
    SysNet(t, ifs, a[self := r]);
    SysMirrors(t, ifs, a[self := r], self);
    SysOnlyAt(t, ifs, a, self, r);
    MirroredOnce(t, SysOf(t, ifs, a), s, SysOf(t, ifs, a[self := r]), self, ifs[self], r);
  }

  lemma SentGrows(r: Local, r': Local, i: nat, packets: seq<Msg>)
    requires Sent(r, r', i, packets)
    ensures SentBy(r') == SentBy(r) + Members(packets)
  {
    forall m | m in SentBy(r) + Members(packets)
      ensures m in SentBy(r')
    {
      if m in SentBy(r) {
        var j :| 0 <= j < |r.ports| && m in r.ports[j].out;
        assert m in r'.ports[j].out;
      } else {
        assert m in r'.ports[i].out;
      }
    }
  }

  lemma PacketsAfter(a: Routers, self: nat, r: Local, more: set<Msg>)
    requires self in a && SentBy(r) == SentBy(a[self]) + more
    ensures Packets(a[self := r]) == Packets(a) + more
  {
    hide SentBy;
    var a' := a[self := r];
    forall m | m in Packets(a) + more
      ensures m in Packets(a')
    {
      if m in Packets(a) {
        var q :| q in a && m in SentBy(a[q]);
        assert m in SentBy(a'[q]);
      } else {
        assert m in SentBy(a'[self]);
      }
    }
  }

  lemma SameSentBy(r: Local, r': Local)
    requires SameSent(r, r')
    ensures SentBy(r') == SentBy(r)
  {
  }

  /** What follows a step at an interface is what the routers then make up. */
  lemma FollowsBecomes(t: Topology, ifs: Wiring, a: Routers, self: nat, i: nat, r: Local, s: Sys)
    requires Wired(t, ifs) && Sound(t, ifs, a) && self in a && Sound(t, ifs, a[self := r])
    requires Follows(t, SysOf(t, ifs, a), s, self, ifs[self], a[self], r, i)
    ensures s == SysOf(t, ifs, a[self := r])
  {
    hide Sound, Wired, Mirrors, OnlyAt, Packets, SentBy, Sent;
    var packets :| Sent(a[self], r, i, packets) && s.net == SysOf(t, ifs, a).net + Members(packets);
    SentGrows(a[self], r, i, packets);
    PacketsAfter(a, self, r, Members(packets));
    Becomes(t, ifs, a, self, r, s);
  }

  /** The step of the area that an act takes, if any: a hello that changes no status takes none. */
  ghost function StepOf(t: Topology, ifs: Wiring, a: Routers, act: Act): seq<Step>
    requires Wired(t, ifs) && Sound(t, ifs, a) && Able(t, ifs, a, act)
  {
    match act
    case Own(k, info, age) => [Originate(k, info, age)]
    case At(step) => [step]
    case HelloHigh(e, addr, metric, now, snapshot) =>
      var p := PortOf(t, ifs, a, e);
      if p.hello.highUp then []
      else [LinkUp(e, now, HelloInfo(a[e.rt].db, PortKey(p, t.peer[e]), addr, metric, true), snapshot)]
    case DeadHigh(e, addr, metric, now) =>
      [LinkDown(e, now, HelloInfo(a[e.rt].db, PortKey(PortOf(t, ifs, a, e), t.peer[e]), addr, metric, false))]
    case _ => []
  }

  /** The area takes the step, if there is one, and otherwise stays as it is. */
  ghost predicate Takes(t: Topology, s: Sys, s': Sys, steps: seq<Step>)
    requires ValidTopology(t)
  {
    if steps == [] then s' == s else |steps| == 1 && Next(t, s, s', steps[0])
  }

  lemma OwnTakes(t: Topology, ifs: Wiring, a: Routers, k: Key, info: Info, age: int)
    requires Wired(t, ifs) && Sound(t, ifs, a) && Able(t, ifs, a, Own(k, info, age))
    ensures Shape(t, SysOf(t, ifs, a)) && k.rt in a
    ensures Sound(t, ifs, a[k.rt := OwnLocal(a[k.rt], k, info, age)])
    ensures SpreadOwn(t, SysOf(t, ifs, a), k, info, age) == SysOf(t, ifs, a[k.rt := OwnLocal(a[k.rt], k, info, age)])
  {
    hide Mirrors, OnlyAt, Packets, LocalSound, HasPorts, SysOf, OwnLocal, SpreadOwn, Interfaces;
    var self, s0 := k.rt, SysOf(t, ifs, a);
    var r := OwnLocal(a[self], k, info, age);
    SoundAfter(t, ifs, a, Own(k, info, age));
    SysMirrors(t, ifs, a, self);
    OwnMirrors(t, s0, self, ifs[self], a[self], k, info, age);
    SameSentBy(a[self], r);
    PacketsAfter(a, self, r, {});
    SysNet(t, ifs, a);
    Becomes(t, ifs, a, self, r, SpreadOwn(t, s0, k, info, age));
  }

  /** What the area sees of the interface at which a handler is called. */
  lemma PlaceSeen(t: Topology, ifs: Wiring, a: Routers, act: Act) returns (i: nat)
    requires Wired(t, ifs) && Sound(t, ifs, a) && Able(t, ifs, a, act) && !act.Own?
    ensures var e := Place(t, act);
            && e in t.peer && e.rt in a && e.rt in ifs && e in ifs[e.rt] && i == Slot(ifs, e)
            && i < |ifs[e.rt]| && ifs[e.rt][i] == e
            && i < |a[e.rt].ports| && a[e.rt].ports[i] == PortOf(t, ifs, a, e) && a[e.rt].ports[i].me == e
            && PortSound(PortOf(t, ifs, a, e), t.peer[e])
            && Shape(t, SysOf(t, ifs, a)) && SysOf(t, ifs, a).net == Packets(a)
            && SysOf(t, ifs, a).flood[e] == PortOf(t, ifs, a, e).flood
            && SysOf(t, ifs, a).exch[e] == PortOf(t, ifs, a, e).exch
            && SysOf(t, ifs, a).db[e.rt] == a[e.rt].db
            && Mirrors(t, SysOf(t, ifs, a), e.rt, ifs[e.rt], a[e.rt])
  {
    hide Mirrors, PortSound, SysOf, Packets, Does;
    PlaceFits(t, ifs, a, act);
    var e := Place(t, act);
    SysShape(t, ifs, a);
    SysNet(t, ifs, a);
    SysMirrors(t, ifs, a, e.rt);
    i := Slot(ifs, e);
  }

  /** And what becomes of it. */
  lemma PlaceAfter(t: Topology, ifs: Wiring, a: Routers, act: Act, i: nat)
    requires Wired(t, ifs) && Sound(t, ifs, a) && Able(t, ifs, a, act) && !act.Own?
    requires Place(t, act).rt in ifs && Place(t, act) in ifs[Place(t, act).rt] && i == Slot(ifs, Place(t, act))
    ensures var e := Place(t, act);
            && e in t.peer && e.rt in a && i < |a[e.rt].ports|
            && After(t, ifs, a, act) == a[e.rt := Does(t, a[e.rt], i, act)]
            && Sound(t, ifs, a[e.rt := Does(t, a[e.rt], i, act)])
  {
    hide PortSound, Packets, Does, LocalSound;
    PlaceFits(t, ifs, a, act);
    SoundAfter(t, ifs, a, act);
  }

  lemma AtTakes(t: Topology, ifs: Wiring, a: Routers, step: Step)
    requires Wired(t, ifs) && Sound(t, ifs, a) && Able(t, ifs, a, At(step))
    ensures Sound(t, ifs, After(t, ifs, a, At(step)))
    ensures Next(t, SysOf(t, ifs, a), SysOf(t, ifs, After(t, ifs, a, At(step))), step)
  {
    hide Mirrors, Follows, Sound, LocalSound, SysOf, Packets, PortSound, PortOf, Handled, After, Apply, Shape,
      Interfaces;
    var i := PlaceSeen(t, ifs, a, At(step));
    PlaceAfter(t, ifs, a, At(step), i);
    var s0, e := SysOf(t, ifs, a), Place(t, At(step));
    assert Enabled(t, s0, step);
    StepFollows(t, s0, step, e.rt, ifs[e.rt], a[e.rt], i);
    FollowsBecomes(t, ifs, a, e.rt, i, Handled(t, a[e.rt], e.rt, i, step), Apply(t, s0, step));
  }

  lemma HelloHighTakes(t: Topology, ifs: Wiring, a: Routers, act: Act)
    requires Wired(t, ifs) && Sound(t, ifs, a) && Able(t, ifs, a, act) && act.HelloHigh?
    ensures Sound(t, ifs, After(t, ifs, a, act))
    ensures Takes(t, SysOf(t, ifs, a), SysOf(t, ifs, After(t, ifs, a, act)), StepOf(t, ifs, a, act))
  {
    hide Mirrors, Follows, Sound, LocalSound, SysOf, Packets, PortOf, BringUp, IsSnapshot, HelloInfo, After, Shape,
      Interfaces;
    var i := PlaceSeen(t, ifs, a, act);
    PlaceAfter(t, ifs, a, act, i);
    var s0, e := SysOf(t, ifs, a), act.e;
    var r, p := a[e.rt], PortOf(t, ifs, a, e);
    if p.hello.highUp {
      assert a[e.rt := Does(t, r, i, act)] == a;
    } else {
      var info := HelloInfo(r.db, PortKey(p, t.peer[e]), act.addr, act.metric, true);
      assert Enabled(t, s0, LinkUp(e, act.now, info, act.snapshot));
      HelloHighFollows(t, s0, e.rt, ifs[e.rt], r, i, act.addr, act.metric, act.now, act.snapshot);
      FollowsBecomes(t, ifs, a, e.rt, i, Does(t, r, i, act), BringUp(t, s0, e, act.now, info, act.snapshot));
    }
  }

  lemma DeadHighTakes(t: Topology, ifs: Wiring, a: Routers, act: Act)
    requires Wired(t, ifs) && Sound(t, ifs, a) && Able(t, ifs, a, act) && act.DeadHigh?
    ensures Sound(t, ifs, After(t, ifs, a, act))
    ensures Takes(t, SysOf(t, ifs, a), SysOf(t, ifs, After(t, ifs, a, act)), StepOf(t, ifs, a, act))
  {
    hide Mirrors, Follows, Sound, LocalSound, SysOf, Packets, PortOf, TakeDown, HelloInfo, After, Shape, Interfaces;
    var i := PlaceSeen(t, ifs, a, act);
    PlaceAfter(t, ifs, a, act, i);
    var s0, e := SysOf(t, ifs, a), act.e;
    var r, p := a[e.rt], PortOf(t, ifs, a, e);
    var info := HelloInfo(r.db, PortKey(p, t.peer[e]), act.addr, act.metric, false);
    DeadHighFollows(t, s0, e.rt, ifs[e.rt], r, i, act.addr, act.metric, act.now);
    FollowsBecomes(t, ifs, a, e.rt, i, Does(t, r, i, act), TakeDown(t, s0, e, act.now, info));
  }

  lemma LowTakes(t: Topology, ifs: Wiring, a: Routers, act: Act)
    requires Wired(t, ifs) && Sound(t, ifs, a) && Able(t, ifs, a, act) && (act.HelloLow? || act.DeadLow?)
    ensures Sound(t, ifs, After(t, ifs, a, act))
    ensures SysOf(t, ifs, After(t, ifs, a, act)) == SysOf(t, ifs, a)
  {
    hide Mirrors, Follows, Sound, LocalSound, SysOf, Packets, PortOf, After, Shape, Interfaces, SentBy;
    var i := PlaceSeen(t, ifs, a, act);
    PlaceAfter(t, ifs, a, act, i);
    var s0, e := SysOf(t, ifs, a), Place(t, act);
    var r, r' := a[e.rt], Does(t, a[e.rt], i, act);
    HelloUnseen(t, s0, s0, e.rt, ifs[e.rt], r, r, i, r'.ports[i].hello);
    assert r' == r.(ports := r.ports[i := r.ports[i].(hello := r'.ports[i].hello)]);
    SameOuts(r, r');
    PacketsAfter(a, e.rt, r', {});
    Becomes(t, ifs, a, e.rt, r', s0);
  }

  lemma SameOuts(r: Local, r': Local)
    requires |r'.ports| == |r.ports| && forall j :: 0 <= j < |r.ports| ==> r'.ports[j].out == r.ports[j].out
    ensures SentBy(r') == SentBy(r)
  {
  }

  /** Every handler call is a step of the area, or leaves it as it is. */
  lemma ActTakes(t: Topology, ifs: Wiring, a: Routers, act: Act)
    requires Wired(t, ifs) && Sound(t, ifs, a) && Able(t, ifs, a, act)
    ensures Sound(t, ifs, After(t, ifs, a, act))
    ensures Takes(t, SysOf(t, ifs, a), SysOf(t, ifs, After(t, ifs, a, act)), StepOf(t, ifs, a, act))
  {
    hide Wired, Sound, SysOf, Packets, PortOf, HelloInfo, Shape, IsSnapshot, OwnLocal, SpreadOwn;
    match act
    case Own(k, info, age) => OwnTakes(t, ifs, a, k, info, age);
    case At(step) => AtTakes(t, ifs, a, step);
    case HelloHigh(_, _, _, _, _) => HelloHighTakes(t, ifs, a, act);
    case DeadHigh(_, _, _, _) => DeadHighTakes(t, ifs, a, act);
    case _ => LowTakes(t, ifs, a, act);
  }

  // ----- runs -----

  /** Every router starts with links of its own only and idle interfaces. */
  ghost predicate Begin(t: Topology, ifs: Wiring, a: Routers) {
    && a.Keys == ifs.Keys
    && forall r :: r in a ==>
         && (forall k :: k in a[r].db ==> k.rt == r)
         && |a[r].ports| == |ifs[r]|
         && forall i :: 0 <= i < |ifs[r]| ==> a[r].ports[i] == Idle(ifs[r][i])
  }

  lemma BeginSound(t: Topology, ifs: Wiring, a: Routers)
    requires Wired(t, ifs) && Begin(t, ifs, a)
    ensures Sound(t, ifs, a)
  {
    hide PortSound, Interfaces, Idle;
    forall r, i | r in a && 0 <= i < |ifs[r]|
      ensures ifs[r][i] in t.peer && a[r].ports[i].me == ifs[r][i] && PortSound(a[r].ports[i], t.peer[ifs[r][i]])
    {
      SlotIs(t, ifs, r, i);
      IdleSound(ifs[r][i], t.peer[ifs[r][i]]);
    }
  }

  lemma BeginIsInit(t: Topology, ifs: Wiring, a: Routers)
    requires Wired(t, ifs) && Begin(t, ifs, a) && Sound(t, ifs, a)
    ensures Init(t, SysOf(t, ifs, a))
  {
    hide Wired, Sound, SysOf, Packets, PortOf, Idle;
    SysShape(t, ifs, a);
    SysNet(t, ifs, a);
    NothingSent(t, ifs, a);
    PortsIdle(t, ifs, a);
  }

  lemma IdleSound(e: Eth, far: Eth)
    ensures Idle(e).me == e && PortSound(Idle(e), far)
  {
  }

  lemma PortsIdle(t: Topology, ifs: Wiring, a: Routers)
    requires Wired(t, ifs) && Begin(t, ifs, a) && Sound(t, ifs, a)
    ensures forall e :: e in t.peer ==>
      PortOf(t, ifs, a, e).flood == F.INITIAL && PortOf(t, ifs, a, e).exch == X.INITIAL
  {
  }

  lemma NothingSent(t: Topology, ifs: Wiring, a: Routers)
    requires Begin(t, ifs, a)
    ensures Packets(a) == {}
  {
    forall r | r in a
      ensures SentBy(a[r]) == {}
    {
    }
  }

  ghost predicate Acts(t: Topology, ifs: Wiring, a: Routers, a': Routers, act: Act)
    requires Wired(t, ifs)
  {
    Sound(t, ifs, a) && Able(t, ifs, a, act) && a' == After(t, ifs, a, act)
  }

  /** A run of the routers: handler calls, at any router, in any order. */
  ghost predicate ZoneRun(t: Topology, ifs: Wiring, run: seq<Routers>, acts: seq<Act>)
    requires Wired(t, ifs)
  {
    && |run| == |acts| + 1 && Begin(t, ifs, run[0])
    && (forall i :: 0 <= i < |acts| ==> Acts(t, ifs, run[i], run[i + 1], acts[i]))
  }

  /** No dead timer fires, and no packet finds a learnt entry past its limit. */
  ghost predicate CalmAct(t: Topology, a: Routers, act: Act) {
    && !act.DeadHigh?
    && (act.At? && act.step.Deliver? && act.step.m.src in t.peer ==>
          var self := t.peer[act.step.m.src].rt;
          self in a && Fresh(a[self].db, self, act.step.now))
  }

  ghost predicate CalmZones(t: Topology, run: seq<Routers>, acts: seq<Act>) {
    |run| == |acts| + 1 && forall i :: 0 <= i < |acts| ==> CalmAct(t, run[i], acts[i])
  }

  lemma CalmTakes(t: Topology, ifs: Wiring, a: Routers, act: Act)
    requires Wired(t, ifs) && Sound(t, ifs, a) && Able(t, ifs, a, act) && CalmAct(t, a, act)
    requires Shape(t, SysOf(t, ifs, a))
    ensures forall step :: step in StepOf(t, ifs, a, act) && Enabled(t, SysOf(t, ifs, a), step) ==>
      Calm(t, SysOf(t, ifs, a), step)
  {
    hide Fresh, Wired, Sound, SysOf, PortOf, HelloInfo, Packets, IsSnapshot, Shape;
    WiredFits(t, ifs);
    SysShape(t, ifs, a);
    match act
    case At(Deliver(m, now)) =>
      SysNet(t, ifs, a);
      PeerFits(t, m.src);
    case _ =>
  }

  lemma WiredFits(t: Topology, ifs: Wiring)
    requires Wired(t, ifs)
    ensures ValidTopology(t)
  {
  }

  /** The steps that a run of the routers takes are a run of the area, to the state that the routers make up. */
  lemma {:induction false} RunFollows(t: Topology, ifs: Wiring, run: seq<Routers>, acts: seq<Act>, n: nat)
    returns (states: seq<Sys>, steps: seq<Step>)
    requires Wired(t, ifs) && ZoneRun(t, ifs, run, acts) && n < |run|
    ensures Sound(t, ifs, run[n])
    ensures Run(t, states, steps) && |steps| <= n && states[|states| - 1] == SysOf(t, ifs, run[n])
    ensures CalmZones(t, run, acts) ==> CalmRun(t, states, steps)
  {
    hide Wired, Sound, SysOf, Init, Next, Able, After, Begin, CalmAct, StepOf, Calm, Enabled, Shape;
    if n == 0 {
      BeginSound(t, ifs, run[0]);
      BeginIsInit(t, ifs, run[0]);
      states, steps := [SysOf(t, ifs, run[0])], [];
    } else {
      states, steps := RunFollows(t, ifs, run, acts, n - 1);
      var a, act := run[n - 1], acts[n - 1];
      assert Acts(t, ifs, run[n - 1], run[n - 1 + 1], acts[n - 1]);
      ActTakes(t, ifs, a, act);
      var more := StepOf(t, ifs, a, act);
      if more != [] {
        WiredFits(t, ifs);
        NextFits(t, SysOf(t, ifs, a), SysOf(t, ifs, run[n]), more[0]);
        if CalmZones(t, run, acts) {
          CalmTakes(t, ifs, a, act);
        }
        states, steps := states + [SysOf(t, ifs, run[n])], steps + more;
      }
    }
  }

  lemma NextFits(t: Topology, s: Sys, s': Sys, step: Step)
    requires ValidTopology(t) && Next(t, s, s', step)
    ensures Shape(t, s) && Enabled(t, s, step)
  {
  }

  // ----- what it means for the routers -----

  /** Every interface is up with nothing queued or unacknowledged, and its exchange ended at one of the two ends. */
  ghost predicate ZonesQuiet(t: Topology, ifs: Wiring, a: Routers)
    requires Wired(t, ifs) && Sound(t, ifs, a)
  {
    forall e :: e in t.peer && t.peer[e] in t.peer ==>
      && PortOf(t, ifs, a, e).flood.phase == F.Ready
      && (PortOf(t, ifs, a, e).exch.send == X.SendEnd || PortOf(t, ifs, a, t.peer[e]).exch.rcv == X.RcvEnd)
  }

  /** Every router holds, for every key that any router knows, its originator's sequence number. */
  predicate Agreed(a: Routers) {
    forall r, q, k :: r in a && q in a && k in a[q].db ==>
      k.rt in a && k in a[k.rt].db && k in a[r].db && a[r].db[k].num == a[k.rt].db[k].num
  }

  /** Flood convergence, for the routers themselves. */
  lemma ZonesConverge(t: Topology, ifs: Wiring, run: seq<Routers>, acts: seq<Act>, n: nat)
    requires Wired(t, ifs) && Connected(t) && ZoneRun(t, ifs, run, acts) && CalmZones(t, run, acts) && n < |run|
    ensures Sound(t, ifs, run[n])
    ensures ZonesQuiet(t, ifs, run[n]) ==> Agreed(run[n])
  {
    hide Sound, Wired, Connected, CalmZones, CalmRun, ZoneRun, Run, PortOf, SysOf, Converged, Agreed, AllQuiet,
      Shape, ZonesQuiet;
    var states, steps := RunFollows(t, ifs, run, acts, n);
    WiredFits(t, ifs);
    RunSize(t, states, steps);
    Convergence(t, states, steps, |states| - 1);
    if ZonesQuiet(t, ifs, run[n]) {
      SeenQuiet(t, ifs, run[n]);
      SeenAgreed(t, ifs, run[n]);
    }
  }

  /** Quiet routers make up a quiet area, and an area that agrees is one of routers that agree. */
  lemma SeenQuiet(t: Topology, ifs: Wiring, a: Routers)
    requires Wired(t, ifs) && Sound(t, ifs, a) && ZonesQuiet(t, ifs, a)
    ensures Shape(t, SysOf(t, ifs, a)) && AllQuiet(t, SysOf(t, ifs, a))
  {
    hide Sound, PortOf, SysOf, Interfaces;
    SysShape(t, ifs, a);
  }

  lemma SeenAgreed(t: Topology, ifs: Wiring, a: Routers)
    requires Wired(t, ifs) && Sound(t, ifs, a) && Shape(t, SysOf(t, ifs, a)) && Converged(t, SysOf(t, ifs, a))
    ensures Agreed(a)
  {
    hide Sound, Wired, PortOf, SysOf;
    SysShape(t, ifs, a);
  }

  lemma RunSize(t: Topology, states: seq<Sys>, steps: seq<Step>)
    requires ValidTopology(t) && Run(t, states, steps)
    ensures |states| == |steps| + 1
  {
  }

  /** At this call router r takes a lower number for k from the packet it receives, in place of a stale learnt entry. */
  ghost predicate Lowered(t: Topology, a: Routers, a': Routers, act: Act, r: nat, k: Key) {
    && act.At? && act.step.Deliver? && act.step.m in Packets(a)
    && act.step.m.src in t.peer && t.peer[act.step.m.src].rt == r && k.rt != r
    && r in a && r in a' && k in a[r].db && k in a'[r].db
    && OutOfDate(a[r].db[k], act.step.now) && a'[r].db[k].num < a[r].db[k].num
    && exists l :: l in Carried(act.step.m) && l.key == k && l.num == a'[r].db[k].num
  }

  lemma ActSafe(t: Topology, ifs: Wiring, a: Routers, act: Act, r: nat, k: Key)
    requires Wired(t, ifs) && Sound(t, ifs, a) && Able(t, ifs, a, act) && r in a && k in a[r].db
    ensures var a' := After(t, ifs, a, act);
            && Sound(t, ifs, a') && r in a' && k in a'[r].db
            && (a'[r].db[k].num < a[r].db[k].num ==> Lowered(t, a, a', act, r, k))
  {
    hide Wired, Sound, SysOf, Able, After, StepOf, Apply, Enabled, Shape, SafeStep, Lowered;
    ActTakes(t, ifs, a, act);
    var a', steps := After(t, ifs, a, act), StepOf(t, ifs, a, act);
    WiredFits(t, ifs);
    if steps == [] {
      SameDb(t, ifs, a, a', r);
    } else {
      SysDb(t, ifs, a, r);
      NextFits(t, SysOf(t, ifs, a), SysOf(t, ifs, a'), steps[0]);
      StepSafe(t, SysOf(t, ifs, a), steps[0], r, k);
      DeliveryIsAct(t, ifs, a, act);
      SafeSeen(t, ifs, a, a', act, steps[0], r, k);
    }
  }

  lemma DeliveryIsAct(t: Topology, ifs: Wiring, a: Routers, act: Act)
    requires Wired(t, ifs) && Sound(t, ifs, a) && Able(t, ifs, a, act)
    ensures forall step :: step in StepOf(t, ifs, a, act) && step.Deliver? ==> act == At(step)
  {
    hide Wired, Sound, PortOf, HelloInfo, IsSnapshot, Packets;
  }

  lemma SysDb(t: Topology, ifs: Wiring, a: Routers, r: nat)
    requires Wired(t, ifs) && Sound(t, ifs, a)
    ensures Shape(t, SysOf(t, ifs, a)) && SysOf(t, ifs, a).net == Packets(a)
    ensures (r in a <==> r in t.routers) && (r in a ==> SysOf(t, ifs, a).db[r] == a[r].db)
  {
    hide Wired, Sound, SysOf, PortOf;
    SysShape(t, ifs, a);
    SysNet(t, ifs, a);
  }

  lemma SameDb(t: Topology, ifs: Wiring, a: Routers, a': Routers, r: nat)
    requires Wired(t, ifs) && Sound(t, ifs, a) && Sound(t, ifs, a') && SysOf(t, ifs, a) == SysOf(t, ifs, a') && r in a
    ensures r in a' && a'[r].db == a[r].db
  {
    hide Wired, Sound, SysOf;
    SysDb(t, ifs, a, r);
    SysDb(t, ifs, a', r);
  }

  /** What a step of the area may do to an entry, a handler call may do to it. */
  lemma SafeSeen(t: Topology, ifs: Wiring, a: Routers, a': Routers, act: Act, step: Step, r: nat, k: Key)
    requires Wired(t, ifs) && Sound(t, ifs, a) && Sound(t, ifs, a') && r in a && k in a[r].db
    requires Shape(t, SysOf(t, ifs, a)) && Shape(t, SysOf(t, ifs, a')) && r in t.routers
    requires SafeStep(t, SysOf(t, ifs, a), SysOf(t, ifs, a'), step, r, k) && (step.Deliver? ==> act == At(step))
    ensures r in a' && k in a'[r].db && (a'[r].db[k].num < a[r].db[k].num ==> Lowered(t, a, a', act, r, k))
  {
    hide Wired, Sound, SysOf, Packets, OutOfDate, Shape;
    WiredFits(t, ifs);
    SysDb(t, ifs, a, r);
    SysDb(t, ifs, a', r);
    PacketsFit(t, ifs, a);
  }

  /** Sequence safety, for the routers themselves. */
  lemma {:induction false} ZonesKeepNumbers(t: Topology, ifs: Wiring, run: seq<Routers>, acts: seq<Act>,
                                            i: nat, j: nat, r: nat, k: Key)
    requires Wired(t, ifs) && ZoneRun(t, ifs, run, acts) && i <= j < |run|
    requires r in run[i] && k in run[i][r].db
    ensures r in run[j] && k in run[j][r].db
    ensures run[j][r].db[k].num < run[i][r].db[k].num ==>
      exists n :: i <= n < j && Lowered(t, run[n], run[n + 1], acts[n], r, k)
    decreases j - i
  {
    hide Wired, Sound, Able, After, Lowered;
    if i < j {
      assert Acts(t, ifs, run[i], run[i + 1], acts[i]);
      ActSafe(t, ifs, run[i], acts[i], r, k);
      ZonesKeepNumbers(t, ifs, run, acts, i + 1, j, r, k);
    }
  }
}

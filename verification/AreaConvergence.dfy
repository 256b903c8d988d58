/**
  Convergence of an area: when nothing is queued or unacknowledged any more, all
  routers agree with the originator of every link on its sequence number.
 */
module AreaConvergence {
  import opened LinkStates
  import opened AreaNetwork
  import opened LinkInvariant
  import F = FloodLink
  import X = ExchangeLink

  /** Nobody is ahead of the originator of a key. */
  predicate Bounded(t: Topology, db: map<nat, Db>)
    requires db.Keys == t.routers
  {
    forall r, k :: r in t.routers && k in db[r] ==>
      k.rt in t.routers && Holds(db[k.rt], ToLsa(k, db[r][k]))
  }

  /** Interface e of a state, seen as one direction of a link. */
  function View(t: Topology, s: Sys, e: Eth): Link
    requires ValidTopology(t) && Shape(t, s) && e in t.peer
  {
    var g := t.peer[e];
    Link(e, g, s.db[e.rt], s.db[g.rt], s.flood[e], s.exch[e], s.exch[g].rcv, s.net)
  }

  ghost predicate Inv(t: Topology, s: Sys)
    requires ValidTopology(t)
  {
    && Shape(t, s)
    && Bounded(t, s.db)
    && (forall e :: e in t.peer ==> Good(View(t, s, e)))
  }

  /** A step at which no link goes down and no learnt entry is found past its freshness limit. */
  predicate Calm(t: Topology, s: Sys, step: Step)
    requires ValidTopology(t) && Shape(t, s) && Enabled(t, s, step)
  {
    match step
    case LinkDown(_, _, _) => false
    case Deliver(m, now) => Fresh(s.db[t.peer[m.src].rt], t.peer[m.src].rt, now)
    case _ => true
  }

  // ----- one advertisement arriving -----

  lemma OriginatorHolds(t: Topology, db: map<nat, Db>, u: nat, l: Lsa)
    requires db.Keys == t.routers && Bounded(t, db) && u in t.routers && Holds(db[u], l)
    ensures l.key.rt in t.routers && Holds(db[l.key.rt], l)
  {
  }

  /** Accepting what its originator has sent, into a database of fresh entries, only adds knowledge. */
  lemma AcceptGrows(db: Db, self: nat, l: Lsa, now: int)
    requires Fresh(db, self, now)
    requires l.key.rt == self ==> Holds(db, l)
    ensures var o := Accept(db, self, l, now);
            && Monotone(db, o.db) && Fresh(o.db, self, now) && Holds(o.db, l)
            && (o.db == db || (l.key.rt != self && o.db == db[l.key := ToEntry(l, now)] && o.reaction == Forward(l)))
            && (o.reaction.Forward? ==> o.reaction.lsa == l)
            && (o.reaction.Back? ==> Holds(o.db, o.reaction.lsa))
  {
  }

  lemma BoundedAfter(t: Topology, db: map<nat, Db>, v: nat, l: Lsa, e: Entry)
    requires db.Keys == t.routers && Bounded(t, db)
    requires v in t.routers && l.key.rt in t.routers && e.num == l.num
    requires if l.key.rt == v then l.key in db[v] ==> db[v][l.key].num <= l.num else Holds(db[l.key.rt], l)
    ensures Bounded(t, db[v := db[v][l.key := e]])
  {
  }

  /** One direction of one link across the arrival of l at interface f. */
  lemma LinkAcrossReceive(t: Topology, s: Sys, f: Eth, l: Lsa, now: int, e: Eth)
    requires ValidTopology(t) && Shape(t, s) && f in t.peer && e in t.peer
    requires Good(View(t, s, e)) && Holds(s.db[t.peer[f].rt], l) && Fresh(s.db[f.rt], f.rt, now)
    requires l.key.rt == f.rt ==> Holds(s.db[f.rt], l)
    ensures Good(View(t, Receive(t, s, f, l, now), e))
  {
    hide Good, Fresh;
    var s' := Receive(t, s, f, l, now);
    AcceptGrows(s.db[f.rt], f.rt, l, now);
    var o := Accept(s.db[f.rt], f.rt, l, now);
    var v, w := View(t, s, e), View(t, s', e);
    GoodAfterEnqueue(v, w, if o.reaction.Silent? then l else o.reaction.lsa);
  }

  lemma ReceiveKeeps(t: Topology, s: Sys, f: Eth, l: Lsa, now: int)
    requires ValidTopology(t) && Inv(t, s) && f in t.peer
    requires Holds(s.db[t.peer[f].rt], l) && Fresh(s.db[f.rt], f.rt, now)
    ensures var s' := Receive(t, s, f, l, now);
            && Inv(t, s') && s'.exch == s.exch && s'.net == s.net
            && s'.db == s.db[f.rt := s'.db[f.rt]]
            && Monotone(s.db[f.rt], s'.db[f.rt]) && Holds(s'.db[f.rt], l) && Fresh(s'.db[f.rt], f.rt, now)
  {
    hide Good, Fresh, Bounded;
    var s' := Receive(t, s, f, l, now);
    OriginatorHolds(t, s.db, t.peer[f].rt, l);
    AcceptGrows(s.db[f.rt], f.rt, l, now);
    if s'.db[f.rt] != s.db[f.rt] {
      BoundedAfter(t, s.db, f.rt, l, ToEntry(l, now));
    } else {
      assert s'.db == s.db;
    }
    forall e | e in t.peer
      ensures Good(View(t, s', e))
    {
      LinkAcrossReceive(t, s, f, l, now, e);
    }
  }

  /** From s to s' router f.rt has taken in ls; databases have only grown, packets and exchanges stay. */
  ghost predicate Took(s: Sys, s': Sys, f: Eth, ls: seq<Lsa>) {
    && f.rt in s.db && f.rt in s'.db && s'.exch == s.exch && s'.net == s.net
    && s'.db == s.db[f.rt := s'.db[f.rt]]
    && Monotone(s.db[f.rt], s'.db[f.rt]) && AllHeld(s'.db[f.rt], ls)
  }

  lemma TookOneMore(s: Sys, s1: Sys, s': Sys, f: Eth, ls: seq<Lsa>)
    requires ls != [] && Took(s, s1, f, [ls[0]]) && Took(s1, s', f, ls[1..])
    ensures Took(s, s', f, ls)
  {
    assert Holds(s1.db[f.rt], [ls[0]][0]);
    assert forall i :: 0 < i < |ls| ==> ls[i] == ls[1..][i - 1];
    assert s.db[f.rt := s1.db[f.rt]][f.rt := s'.db[f.rt]] == s.db[f.rt := s'.db[f.rt]];
  }

  /** A whole packet: afterwards the router holds all of it. */
  lemma {:induction false} ReceiveAllKeeps(t: Topology, s: Sys, f: Eth, ls: seq<Lsa>, now: int)
    requires ValidTopology(t) && Inv(t, s) && f in t.peer
    requires AllHeld(s.db[t.peer[f].rt], ls) && Fresh(s.db[f.rt], f.rt, now)
    ensures Inv(t, ReceiveAll(t, s, f, ls, now)) && Took(s, ReceiveAll(t, s, f, ls, now), f, ls)
    decreases |ls|
  {
    hide Good, Bounded, Receive, Fresh, ValidTopology, Monotone;
    PeerFits(t, f);
    if ls == [] {
      TookNone(s, f);
    } else {
      var s1 := Receive(t, s, f, ls[0], now);
      ReceiveKeeps(t, s, f, ls[0], now);
      assert Took(s, s1, f, [ls[0]]);
      GrownHolds(s, s1, f, t.peer[f].rt, ls);
      ReceiveAllKeeps(t, s1, f, ls[1..], now);
      TookOneMore(s, s1, ReceiveAll(t, s1, f, ls[1..], now), f, ls);
    }
  }

  /** Any router still holds what it held. */
  lemma GrownHolds(s: Sys, s1: Sys, f: Eth, r: nat, ls: seq<Lsa>)
    requires ls != [] && Took(s, s1, f, [ls[0]]) && r in s.db && AllHeld(s.db[r], ls)
    ensures r in s1.db && AllHeld(s1.db[r], ls[1..])
  {
    HeldStays(s.db[r], s1.db[r], ls);
  }

  lemma TookNone(s: Sys, f: Eth)
    ensures f.rt in s.db && f in s.flood ==> Took(s, s, f, [])
  {
  }


  // ----- a router advertising a link of its own -----

  lemma LinkAcrossSpread(t: Topology, s: Sys, k: Key, info: Info, age: int, e: Eth)
    requires ValidTopology(t) && Shape(t, s) && k.rt in t.routers && e in t.peer
    requires Good(View(t, s, e))
    ensures Good(View(t, SpreadOwn(t, s, k, info, age), e))
  {
    hide Good;
    var s' := SpreadOwn(t, s, k, info, age);
    GoodAfterEnqueue(View(t, s, e), View(t, s', e), ToLsa(k, OwnEntry(s.db[k.rt], k, info, age)));
  }

  lemma SpreadKeeps(t: Topology, s: Sys, k: Key, info: Info, age: int)
    requires ValidTopology(t) && Inv(t, s) && k.rt in t.routers
    ensures Inv(t, SpreadOwn(t, s, k, info, age))
  {
    hide Good, Bounded;
    var s' := SpreadOwn(t, s, k, info, age);
    var entry := OwnEntry(s.db[k.rt], k, info, age);
    BoundedAfter(t, s.db, k.rt, ToLsa(k, entry), entry);
    forall e | e in t.peer
      ensures Good(View(t, s', e))
    {
      LinkAcrossSpread(t, s, k, info, age, e);
    }
  }

  /** The two entries that a link coming up writes one after the other, as the database sees them. */
  function UpEntry(db: Db, k: Key, info: Info, now: int): Entry {
    OwnEntry(db[k := HelloEntry(db, k, info, now)], k, info, now)
  }

  lemma BringUpEffect(t: Topology, s: Sys, e: Eth, now: int, info: Info, snapshot: seq<Lsa>)
    requires ValidTopology(t) && Shape(t, s) && e in t.peer
    ensures var s', k, x := BringUp(t, s, e, now, info, snapshot), LinkKey(t, e), X.Start(s.exch[e], snapshot);
            var l := ToLsa(k, UpEntry(s.db[e.rt], k, info, now));
            && s'.db == s.db[e.rt := s.db[e.rt][k := UpEntry(s.db[e.rt], k, info, now)]]
            && s'.exch == s.exch[e := x]
            && s'.net == s.net + {ExPacket(e, x)}
            && s'.flood.Keys == t.peer.Keys
            && (forall g :: g in t.peer && g != e ==>
                  s'.flood[g] == if g.rt == e.rt then F.Enqueue(s.flood[g], l) else s.flood[g])
            && s'.flood[e] == F.Enqueue(F.Start(s.flood[e]), l)
            && x.rcv == s.exch[e].rcv
  {
    var k := LinkKey(t, e);
    var db := s.db[e.rt];
    var mid := db[k := HelloEntry(db, k, info, now)];
    var entry := UpEntry(db, k, info, now);
    assert mid[k := entry] == db[k := entry];
    assert s.db[e.rt := mid][e.rt := db[k := entry]] == s.db[e.rt := db[k := entry]];
  }

  /** The link that comes up: its snapshot covers all but its own entry, which is flooded. */
  lemma AcrossOwnUp(t: Topology, s: Sys, e: Eth, now: int, info: Info, snapshot: seq<Lsa>)
    requires ValidTopology(t) && Shape(t, s) && e in t.peer
    requires s.flood[e].phase == F.Terminated && Good(View(t, s, e))
    requires IsSnapshot(s.db[e.rt][LinkKey(t, e) := HelloEntry(s.db[e.rt], LinkKey(t, e), info, now)], snapshot)
    ensures Good(View(t, BringUp(t, s, e, now, info, snapshot), e))
  {
    hide Good, BringUp, X.Start, F.Start, F.Enqueue, ValidTopology;
    PeerFits(t, e);
    BringUpEffect(t, s, e, now, info, snapshot);
    var k := LinkKey(t, e);
    var v, w := View(t, s, e), View(t, BringUp(t, s, e, now, info, snapshot), e);
    var mid := v.own[k := HelloEntry(v.own, k, info, now)];
    assert w.own[k].num == mid[k].num + 1;
    assert AllHeld(w.own, snapshot);
    forall q | q in w.own && q != k
      ensures exists p :: p in snapshot && p.key == q && w.own[q].num <= p.num
    {
      assert ToLsa(q, mid[q]) in snapshot;
    }
    assert Monotone(v.far, w.far);
    GoodAfterLinkUp(v, w, snapshot, ToLsa(k, w.own[k]));
  }

  /** Any other direction of a link while interface e comes up. */
  lemma AcrossOtherUp(t: Topology, s: Sys, e: Eth, now: int, info: Info, snapshot: seq<Lsa>, g: Eth)
    requires ValidTopology(t) && Shape(t, s) && e in t.peer
    requires g in t.peer && g != e && Good(View(t, s, g))
    ensures Good(View(t, BringUp(t, s, e, now, info, snapshot), g))
  {
    hide Good, BringUp, X.Start, F.Start, F.Enqueue, ValidTopology;
    PeerFits(t, e);
    PeerFits(t, g);
    BringUpEffect(t, s, e, now, info, snapshot);
    var k := LinkKey(t, e);
    var v, w := View(t, s, g), View(t, BringUp(t, s, e, now, info, snapshot), g);
    var packet := ExPacket(e, X.Start(s.exch[e], snapshot));
    var v1 := v.(net := v.net + {packet});
    GoodAfterForeign(v, v1, packet);
    GoodAfterEnqueue(v1, w, ToLsa(k, UpEntry(s.db[e.rt], k, info, now)));
  }

  lemma LinkUpKeeps(t: Topology, s: Sys, e: Eth, now: int, info: Info, snapshot: seq<Lsa>)
    requires ValidTopology(t) && Inv(t, s) && e in t.peer
    requires s.flood[e].phase == F.Terminated
    requires IsSnapshot(s.db[e.rt][LinkKey(t, e) := HelloEntry(s.db[e.rt], LinkKey(t, e), info, now)], snapshot)
    ensures Inv(t, BringUp(t, s, e, now, info, snapshot))
  {
    hide Good, Bounded, BringUp;
    var s', k := BringUp(t, s, e, now, info, snapshot), LinkKey(t, e);
    BringUpEffect(t, s, e, now, info, snapshot);
    var entry := UpEntry(s.db[e.rt], k, info, now);
    BoundedAfter(t, s.db, e.rt, ToLsa(k, entry), entry);
    forall g | g in t.peer
      ensures Good(View(t, s', g))
    {
      if g == e {
        AcrossOwnUp(t, s, e, now, info, snapshot);
      } else {
        AcrossOtherUp(t, s, e, now, info, snapshot, g);
      }
    }
  }

  // ----- packets -----

  lemma AcrossSendTimer(t: Topology, s: Sys, step: Step, e: Eth)
    requires ValidTopology(t) && Shape(t, s) && Enabled(t, s, step) && step.SendTimer?
    requires e in t.peer && Good(View(t, s, e))
    ensures Good(View(t, Apply(t, s, step), e))
  {
    hide Good;
    var v, w := View(t, s, e), View(t, Apply(t, s, step), e);
    if e == step.e {
      GoodAfterSend(v, w);
    } else {
      GoodAfterForeign(v, w, FloodData(step.e, s.flood[step.e].pkgNo + 1, F.SendLsa(s.flood[step.e]).buf));
    }
  }

  /** A retransmission puts nothing new on the wire for its own link. */
  lemma AcrossResend(t: Topology, s: Sys, step: Step, e: Eth)
    requires ValidTopology(t) && Shape(t, s) && Enabled(t, s, step) && (step.Resend? || step.ExResend?)
    requires e in t.peer && Good(View(t, s, e))
    ensures Good(View(t, Apply(t, s, step), e))
  {
    var v, w := View(t, s, e), View(t, Apply(t, s, step), e);
    if e != step.e {
      GoodAfterForeign(v, w, if step.Resend? then FloodData(step.e, s.flood[step.e].pkgNo, s.flood[step.e].buf)
                             else ExPacket(step.e, s.exch[step.e]));
    } else {
      CoversStays(v, w);
    }
  }

  lemma AcrossFloodAck(t: Topology, s: Sys, m: Msg, now: int, e: Eth)
    requires ValidTopology(t) && Shape(t, s) && m in s.net && m.FloodAck?
    requires e in t.peer && Good(View(t, s, e))
    ensures Good(View(t, Arrive(t, s, m, now), e))
  {
    hide Good;
    if e == t.peer[m.src] {
      GoodAfterFloodAck(View(t, s, e), View(t, Arrive(t, s, m, now), e), m.no);
    } else {
      assert View(t, Arrive(t, s, m, now), e) == View(t, s, e);
    }
  }

  lemma AcrossExAck(t: Topology, s: Sys, m: Msg, now: int, e: Eth)
    requires ValidTopology(t) && Shape(t, s) && m in s.net && m.ExAck?
    requires e in t.peer && Good(View(t, s, e))
    ensures Good(View(t, Arrive(t, s, m, now), e))
  {
    hide Good;
    var g := t.peer[m.src];
    var x := X.AckReceived(s.exch[g], m.no);
    var v, w := View(t, s, e), View(t, Arrive(t, s, m, now), e);
    if e == g {
      GoodAfterExAck(v, w, m.no);
    } else if x.pkgNo == s.exch[g].pkgNo {
      assert w == v;
    } else {
      GoodAfterForeign(v, w, ExPacket(g, x));
    }
  }

  /** After the whole of a data packet has been taken in, its acknowledgement goes out. */
  lemma AcrossFloodData(t: Topology, s: Sys, m: Msg, e: Eth)
    requires ValidTopology(t) && Shape(t, s) && m in s.net && m.FloodData?
    requires e in t.peer && Good(View(t, s, e)) && AllHeld(s.db[t.peer[m.src].rt], m.lsas)
    ensures Good(View(t, s.(net := s.net + {FloodAck(t.peer[m.src], m.no)}), e))
  {
    hide Good;
    var ack := FloodAck(t.peer[m.src], m.no);
    var v, w := View(t, s, e), View(t, s.(net := s.net + {ack}), e);
    if e == m.src {
      GoodAfterFloodData(v, w, m);
    } else {
      GoodAfterForeign(v, w, ack);
    }
  }

  lemma AcrossExData(t: Topology, s: Sys, s': Sys, m: Msg, e: Eth)
    requires ValidTopology(t) && Shape(t, s) && Shape(t, s') && m in s.net && m.ExData?
    requires e in t.peer && Good(View(t, s, e))
    requires var f := t.peer[m.src];
             && (X.Listens(s.exch[f], m.lsas) ==> AllHeld(s.db[f.rt], m.lsas))
             && s' == s.(exch := s.exch[f := X.DataReceived(s.exch[f], m.lsas, m.more)],
                         net := if X.Listens(s.exch[f], m.lsas) then s.net + {ExAck(f, m.no)} else s.net)
    ensures Good(View(t, s', e))
  {
    var f := t.peer[m.src];
    var v, w := View(t, s, e), View(t, s', e);
    if e == m.src {
      assert t.peer[e] == f;
      GoodAfterExData(v, w, m);
    } else {
      assert t.peer[e] != f;
      var v1 := v.(x := w.x);
      assert Good(v1) by { CoversStays(v, v1); }
      if X.Listens(s.exch[f], m.lsas) {
        GoodAfterForeign(v1, w, ExAck(f, m.no));
      } else {
        assert w == v1;
      }
    }
  }

  lemma SenderHolds(t: Topology, s: Sys, m: Msg)
    requires ValidTopology(t) && Inv(t, s) && m in s.net && (m.FloodData? || m.ExData?)
    ensures m.src in t.peer && AllHeld(s.db[m.src.rt], m.lsas)
  {
    assert Good(View(t, s, m.src));
  }

  lemma ArriveKeeps(t: Topology, s: Sys, m: Msg, now: int)
    requires ValidTopology(t) && Inv(t, s) && m in s.net
    requires Fresh(s.db[t.peer[m.src].rt], t.peer[m.src].rt, now)
    ensures Inv(t, Arrive(t, s, m, now))
  {
    hide Good, Bounded, ReceiveAll, Fresh;
    var s', f := Arrive(t, s, m, now), t.peer[m.src];
    var s1 := s;
    if m.FloodData? || (m.ExData? && X.Listens(s.exch[f], m.lsas)) {
      SenderHolds(t, s, m);
      ReceiveAllKeeps(t, s, f, m.lsas, now);
      s1 := ReceiveAll(t, s, f, m.lsas, now);
    }
    forall e | e in t.peer
      ensures Good(View(t, s', e))
    {
      match m
      case FloodData(_, _, _) => AcrossFloodData(t, s1, m, e);
      case FloodAck(_, _) => AcrossFloodAck(t, s, m, now, e);
      case ExData(_, _, _, _) => AcrossExData(t, s1, s', m, e);
      case ExAck(_, _) => AcrossExAck(t, s, m, now, e);
    }
  }

  lemma StepKeeps(t: Topology, s: Sys, step: Step)
    requires ValidTopology(t) && Inv(t, s) && Enabled(t, s, step) && Calm(t, s, step)
    ensures Inv(t, Apply(t, s, step))
  {
    hide Good, Bounded, Arrive, BringUp, SpreadOwn, Fresh;
    match step
    case Originate(k, info, age) => SpreadKeeps(t, s, k, info, age);
    case Deliver(m, now) => ArriveKeeps(t, s, m, now);
    case LinkUp(e, now, info, snapshot) => LinkUpKeeps(t, s, e, now, info, snapshot);
    case LinkDown(_, _, _) =>
    case SendTimer(_) =>
      forall e | e in t.peer ensures Good(View(t, Apply(t, s, step), e)) { AcrossSendTimer(t, s, step, e); }
    case _ =>
      forall e | e in t.peer ensures Good(View(t, Apply(t, s, step), e)) { AcrossResend(t, s, step, e); }
  }

  lemma InitGood(t: Topology, s: Sys)
    requires ValidTopology(t) && Init(t, s)
    ensures Inv(t, s)
  {
  }

  // ----- runs -----

  /** No link goes down and no learnt entry ages out along the run. */
  ghost predicate CalmRun(t: Topology, states: seq<Sys>, steps: seq<Step>)
    requires ValidTopology(t)
  {
    && Run(t, states, steps)
    && (forall i :: 0 <= i < |steps| ==> Next(t, states[i], states[i + 1], steps[i]) && Calm(t, states[i], steps[i]))
  }

  lemma {:induction false} RunKeeps(t: Topology, states: seq<Sys>, steps: seq<Step>, n: nat)
    requires ValidTopology(t) && CalmRun(t, states, steps) && n < |states|
    ensures Inv(t, states[n])
  {
    hide Good, Bounded, Arrive, BringUp, SpreadOwn, Fresh;
    if n == 0 {
      InitGood(t, states[0]);
    } else {
      RunKeeps(t, states, steps, n - 1);
      assert Next(t, states[n - 1], states[n - 1 + 1], steps[n - 1]);
      StepKeeps(t, states[n - 1], steps[n - 1]);
    }
  }

  /** Interface e is up, has nothing queued or unacknowledged, and its exchange ended at one of the two ends. */
  predicate Quiet(t: Topology, s: Sys, e: Eth)
    requires ValidTopology(t) && Shape(t, s) && e in t.peer
  {
    && s.flood[e].phase == F.Ready
    && (s.exch[e].send == X.SendEnd || s.exch[t.peer[e]].rcv == X.RcvEnd)
  }

  /** A link leads from router a to router b. */
  ghost predicate Hop(t: Topology, a: nat, b: nat) {
    exists e :: e in t.peer && e.rt == a && t.peer[e].rt == b
  }

  /** `path` leads from one router to another over links of the area. */
  ghost predicate IsPath(t: Topology, path: seq<nat>, a: nat, b: nat) {
    && path != [] && path[0] == a && path[|path| - 1] == b
    && (forall i :: 0 <= i < |path| ==> path[i] in t.routers)
    && (forall i :: 0 < i < |path| ==> Hop(t, path[i - 1], path[i]))
  }

  ghost predicate Connected(t: Topology) {
    forall a, b :: a in t.routers && b in t.routers ==> exists path :: IsPath(t, path, a, b)
  }

  /** Every router holds, for every key that any router knows, its originator's sequence number. */
  predicate Converged(t: Topology, s: Sys)
    requires Shape(t, s)
  {
    forall r, q, k :: r in t.routers && q in t.routers && k in s.db[q] ==>
      k.rt in t.routers && k in s.db[k.rt] && k in s.db[r] && s.db[r][k].num == s.db[k.rt][k].num
  }

  /** All interfaces quiet: knowledge has passed on across each of them. */
  lemma QuietLink(t: Topology, s: Sys, e: Eth, k: Key)
    requires ValidTopology(t) && Inv(t, s) && e in t.peer && Quiet(t, s, e)
    requires k in s.db[e.rt]
    ensures Holds(s.db[t.peer[e].rt], ToLsa(k, s.db[e.rt][k]))
  {
    hide Good;
    QuietCovers(View(t, s, e), k);
  }

  ghost predicate AllQuiet(t: Topology, s: Sys)
    requires ValidTopology(t) && Shape(t, s)
  {
    forall e :: e in t.peer ==> Quiet(t, s, e)
  }

  /** The last link of a path, and the path without it. */
  lemma LastLink(t: Topology, path: seq<nat>, a: nat, b: nat) returns (e: Eth)
    requires IsPath(t, path, a, b) && |path| > 1
    ensures e in t.peer && t.peer[e].rt == b && IsPath(t, path[..|path| - 1], a, e.rt)
  {
    var n := |path| - 1;
    assert Hop(t, path[n - 1], path[n]);
    e :| e in t.peer && e.rt == path[n - 1] && t.peer[e].rt == path[n];
    assert forall i :: 0 <= i < n ==> path[..n][i] == path[i];
  }

  lemma {:induction false} AlongPath(t: Topology, s: Sys, path: seq<nat>, a: nat, b: nat, k: Key)
    requires ValidTopology(t) && Inv(t, s) && AllQuiet(t, s)
    requires IsPath(t, path, a, b) && a in t.routers && b in t.routers && k in s.db[a]
    ensures Holds(s.db[b], ToLsa(k, s.db[a][k]))
    decreases |path|
  {
    hide Good, Bounded, Quiet;
    if |path| == 1 {
    } else {
      hide IsPath;
      var e := LastLink(t, path, a, b);
      AlongPath(t, s, path[..|path| - 1], a, e.rt, k);
      QuietLink(t, s, e, k);
    }
  }

  lemma ConvergedKey(t: Topology, s: Sys, r: nat, q: nat, k: Key)
    requires ValidTopology(t) && Connected(t) && Inv(t, s) && AllQuiet(t, s)
    requires r in t.routers && q in t.routers && k in s.db[q]
    ensures k.rt in t.routers && k in s.db[k.rt] && k in s.db[r] && s.db[r][k].num == s.db[k.rt][k].num
  {
    hide Good, Quiet, Bounded, IsPath;
    OriginatorHolds(t, s.db, q, ToLsa(k, s.db[q][k]));
    var path :| IsPath(t, path, k.rt, r);
    AlongPath(t, s, path, k.rt, r, k);
    OriginatorHolds(t, s.db, r, ToLsa(k, s.db[r][k]));
  }

  /**
    Flood convergence. In a connected area, in any state that a run without link
    failures and ageing reaches with every interface quiet, all databases agree
    with the originators. Stray duplicates may still be in the network.
   */
  lemma Convergence(t: Topology, states: seq<Sys>, steps: seq<Step>, n: nat)
    requires ValidTopology(t) && Connected(t) && CalmRun(t, states, steps) && n < |states|
    ensures Shape(t, states[n])
    ensures AllQuiet(t, states[n]) ==> Converged(t, states[n])
  {
    hide Good, Bounded, Quiet, IsPath;
    RunKeeps(t, states, steps, n);
    var s := states[n];
    if AllQuiet(t, s) {
      forall r, q, k: Key | r in t.routers && q in t.routers && k in s.db[q]
        ensures k.rt in t.routers && k in s.db[k.rt] && k in s.db[r] && s.db[r][k].num == s.db[k.rt][k].num
      {
        ConvergedKey(t, s, r, q, k);
      }
    }
  }
}

/**
  What a received advertisement, an origination and a timer do to an area, case by
  case: which entry changes and how, and what each interface has to send afterwards
  (lsd/lsd_utils.c, lsd/lsd_flood.c, lsd/lsd_exchange.c).
 */
module AreaReactions {
  import opened LinkStates
  import opened AreaNetwork
  import F = FloodLink
  import X = ExchangeLink

  /** Interface f, if it runs, has x to send after what it had; everything else of the area is as before. */
  predicate OnlyQueues(t: Topology, s: Sys, s': Sys, f: Eth, x: Lsa)
    requires Shape(t, s) && Shape(t, s') && f in t.peer
  {
    && s'.db == s.db && s'.exch == s.exch && s'.net == s.net
    && (forall e :: e in t.peer && e != f ==> s'.flood[e] == s.flood[e])
    && (if s.flood[f].phase == F.Terminated then s'.flood[f] == s.flood[f]
        else s'.flood[f].queue == s.flood[f].queue + [x])
  }

  /** An older number for another router's link is answered with the newer one, back where it came from. */
  lemma OlderIsAnswered(t: Topology, s: Sys, f: Eth, l: Lsa, now: int)
    requires ValidTopology(t) && Shape(t, s) && f in t.peer && l.key.rt != f.rt && l.key in s.db[f.rt]
    requires var e := s.db[f.rt][l.key]; !OutOfDate(e, now) && l.num < e.num
    ensures var e := s.db[f.rt][l.key];
            OnlyQueues(t, s, Receive(t, s, f, l, now), f, Lsa(l.key, e.info, e.num))
  {
    hide ValidTopology;
    PeerFits(t, f);
  }

  /** Another number than a router's own for a link of its own is answered with its own; what it does not know it
      ignores. */
  lemma OwnIsAnswered(t: Topology, s: Sys, f: Eth, l: Lsa, now: int)
    requires ValidTopology(t) && Shape(t, s) && f in t.peer && l.key.rt == f.rt
    ensures f.rt in s.db
    ensures if l.key in s.db[f.rt] && s.db[f.rt][l.key].num != l.num then
              var e := s.db[f.rt][l.key];
              OnlyQueues(t, s, Receive(t, s, f, l, now), f, Lsa(l.key, e.info, e.num))
            else Receive(t, s, f, l, now) == s
  {
  }

  /** The number already held changes nothing. */
  lemma SameIsIgnored(t: Topology, s: Sys, f: Eth, l: Lsa, now: int)
    requires ValidTopology(t) && Shape(t, s) && f in t.peer && l.key.rt != f.rt && l.key in s.db[f.rt]
    requires var e := s.db[f.rt][l.key]; !OutOfDate(e, now) && l.num == e.num
    ensures Receive(t, s, f, l, now) == s
  {
  }

  /** News of another router's link is stored as it is, stamped with the clock, and given to every other interface of
      the router that runs; nothing else changes. */
  lemma NewsIsTaken(t: Topology, s: Sys, f: Eth, l: Lsa, now: int)
    requires ValidTopology(t) && Shape(t, s) && f in t.peer && l.key.rt != f.rt && f.rt in s.db
    requires IsNews(s.db[f.rt], l, now)
    ensures var s' := Receive(t, s, f, l, now);
            && s'.db == s.db[f.rt := s.db[f.rt][l.key := Entry(l.info, l.num, now)]]
            && s'.exch == s.exch && s'.net == s.net
            && (forall e :: e in t.peer ==>
                  if e.rt == f.rt && e != f && s.flood[e].phase != F.Terminated
                  then s'.flood[e].queue == s.flood[e].queue + [l] else s'.flood[e] == s.flood[e])
  {
  }

  /** So another running interface is given the advertisement exactly if it was news. */
  lemma GivenIfNews(t: Topology, s: Sys, f: Eth, l: Lsa, now: int, e: Eth)
    requires ValidTopology(t) && Shape(t, s) && f in t.peer && l.key.rt != f.rt && f.rt in s.db
    requires e in t.peer && e.rt == f.rt && e != f && s.flood[e].phase != F.Terminated
    ensures Receive(t, s, f, l, now).flood[e].queue == s.flood[e].queue + [l] <==> IsNews(s.db[f.rt], l, now)
  {
    hide Receive;
    var db := s.db[f.rt];
    if IsNews(db, l, now) {
      NewsIsTaken(t, s, f, l, now);
    } else if db[l.key].num == l.num {
      SameIsIgnored(t, s, f, l, now);
    } else {
      OlderIsAnswered(t, s, f, l, now);
    }
  }

  /** An origination writes the new state under the next number and gives it to every running interface of the
      router; nothing else changes. */
  lemma OriginationIs(t: Topology, s: Sys, k: Key, info: Info, age: int)
    requires ValidTopology(t) && Shape(t, s) && k.rt in t.routers
    ensures k.rt in s.db
    ensures var s', n := SpreadOwn(t, s, k, info, age), NextNumber(s.db[k.rt], k);
            && s'.db.Keys == s.db.Keys && k in s'.db[k.rt]
            && s'.db[k.rt][k].num == n && s'.db[k.rt][k].info == info
            && (forall c :: c != k ==> (c in s'.db[k.rt] <==> c in s.db[k.rt]))
            && (forall c :: c in s.db[k.rt] && c != k ==> s'.db[k.rt][c] == s.db[k.rt][c])
            && (forall r :: r in s.db && r != k.rt ==> s'.db[r] == s.db[r])
            && s'.exch == s.exch && s'.net == s.net
            && (forall e :: e in t.peer ==>
                  if e.rt == k.rt && s.flood[e].phase != F.Terminated
                  then s'.flood[e].queue == s.flood[e].queue + [Lsa(k, info, n)] else s'.flood[e] == s.flood[e])
  {
  }

  /** The send timer sends the head of the queue, at most five, under the next number, and keeps it as
      unacknowledged. */
  lemma SendTimerIs(t: Topology, s: Sys, e: Eth)
    requires ValidTopology(t) && Shape(t, s) && Enabled(t, s, SendTimer(e))
    ensures e in t.peer
    ensures var s', q := Apply(t, s, SendTimer(e)), s.flood[e].queue;
            var n := if |q| < 5 then |q| else 5;
            && s'.db == s.db && s'.exch == s.exch
            && s'.net == s.net + {FloodData(e, s.flood[e].pkgNo + 1, q[..n])}
            && s'.flood == s.flood[e := s'.flood[e]]
            && s'.flood[e].queue == q[n..] && s'.flood[e].buf == q[..n] && s'.flood[e].pkgNo == s.flood[e].pkgNo + 1
            && s'.flood[e].phase == F.AckWaiting && s'.flood[e].ackArmed && !s'.flood[e].sndArmed
  {
  }

  /** The retransmission timers send what is unacknowledged, under its number. */
  lemma ResendIs(t: Topology, s: Sys, e: Eth)
    requires ValidTopology(t) && Shape(t, s) && e in t.peer
    ensures s.flood[e].ackArmed ==>
      Apply(t, s, Resend(e)) == s.(net := s.net + {FloodData(e, s.flood[e].pkgNo, s.flood[e].buf)})
    ensures s.exch[e].ackArmed ==>
      Apply(t, s, ExResend(e)) == s.(net := s.net + {ExData(e, s.exch[e].pkgNo, s.exch[e].buf, s.exch[e].rest != [])})
  {
  }

  /** A flood data packet is always acknowledged, by the interface it arrives at. */
  lemma FloodDataIsAcknowledged(t: Topology, s: Sys, m: Msg, now: int)
    requires ValidTopology(t) && Shape(t, s) && m in s.net && m.FloodData?
    ensures m.src in t.peer
    ensures Apply(t, s, Deliver(m, now)).net == s.net + {FloodAck(t.peer[m.src], m.no)}
  {
    ReceiveAllSends(t, s, t.peer[m.src], m.lsas, now);
  }

  /** Taking advertisements in sends nothing by itself. */
  lemma {:induction false} ReceiveAllSends(t: Topology, s: Sys, f: Eth, ls: seq<Lsa>, now: int)
    requires ValidTopology(t) && Shape(t, s) && f in t.peer
    ensures ReceiveAll(t, s, f, ls, now).net == s.net && ReceiveAll(t, s, f, ls, now).exch == s.exch
    decreases |ls|
  {
    hide ValidTopology, Shape, Accept, Spread, F.Enqueue;
    if ls != [] {
      ReceiveAllSends(t, Receive(t, s, f, ls[0], now), f, ls[1..], now);
    }
  }

  lemma NetFits(t: Topology, s: Sys, m: Msg)
    requires ValidTopology(t) && Shape(t, s) && m in s.net
    ensures m.src in t.peer && t.peer[m.src] in t.peer && t.peer[m.src].rt in t.routers
  {
    PeerFits(t, m.src);
  }

  lemma SameExch(t: Topology, s: Sys, f: Eth)
    requires Shape(t, s) && f in t.peer
    ensures f in s.exch && s.exch[f := s.exch[f]] == s.exch
  {
  }

  /** An exchange data packet with something in it is acknowledged unless its receiver has ended; the last one ends
      the receiver. Any other packet is not answered. */
  lemma ExDataIs(t: Topology, s: Sys, m: Msg, now: int)
    requires ValidTopology(t) && Shape(t, s) && m in s.net && m.ExData?
    ensures m.src in t.peer && t.peer[m.src] in t.peer
    ensures var f, s' := t.peer[m.src], Apply(t, s, Deliver(m, now));
            var heard := s.exch[f].rcv != X.RcvEnd && m.lsas != [];
            && s'.net == (if heard then s.net + {ExAck(f, m.no)} else s.net)
            && (s'.exch[f].rcv == X.RcvEnd <==> s.exch[f].rcv == X.RcvEnd || (m.lsas != [] && !m.more))
            && (!heard ==> s'.db == s.db && s'.flood == s.flood)
            && s'.exch == s.exch[f := s.exch[f].(rcv := s'.exch[f].rcv)]
  {
    hide ReceiveAll, ValidTopology, F.AckReceived, X.AckReceived;
    NetFits(t, s, m);
    ReceiveAllSends(t, s, t.peer[m.src], m.lsas, now);
    SameExch(t, s, t.peer[m.src]);
  }

  /** The acknowledgement of the packet in the exchange buffer sends the next link state, or ends the sending. */
  lemma ExAckIs(t: Topology, s: Sys, m: Msg, now: int)
    requires ValidTopology(t) && Shape(t, s) && m in s.net && m.ExAck?
    ensures m.src in t.peer && t.peer[m.src] in t.peer
    ensures var f, s' := t.peer[m.src], Apply(t, s, Deliver(m, now));
            var x, x' := s.exch[f], s'.exch[f];
            && s'.db == s.db && s'.flood == s.flood && s'.exch == s.exch[f := x']
            && if x.send != X.SendWaiting || m.no != x.pkgNo then s' == s
               else if x.rest == [] then
                 x' == x.(send := X.SendEnd, ackArmed := false) && s'.net == s.net
               else
                 && x' == x.(rest := x.rest[1..], buf := [x.rest[0]], pkgNo := x.pkgNo + 1, ackArmed := true)
                 && s'.net == s.net + {ExData(f, x.pkgNo + 1, [x.rest[0]], |x.rest| > 1)}
  {
    hide ValidTopology, X.Listens;
    NetFits(t, s, m);
    SameExch(t, s, t.peer[m.src]);
  }

  /** A link coming up, at interface e: its entry is written under the next number, the exchange starts with the first
      link state of the snapshot, flooding starts, and every running interface is given the entry, this one included. */
  lemma LinkUpIs(t: Topology, s: Sys, e: Eth, now: int, info: Info, snapshot: seq<Lsa>)
    requires ValidTopology(t) && Shape(t, s) && e in t.peer
    ensures t.peer[e] in t.peer && e.rt in s.db
    ensures var s', x := BringUp(t, s, e, now, info, snapshot), s.exch[e];
            var k := Key(e.rt, e.ifid, t.peer[e].rt, t.peer[e].ifid);
            var n := NextNumber(s.db[e.rt], k);
            && s'.db == s.db[e.rt := s.db[e.rt][k := Entry(info, n, now)]]
            && s'.flood[e].queue == [Lsa(k, info, n)] && s'.flood[e].phase == F.Busy && s'.flood[e].sndArmed
            && (forall f :: f in t.peer && f != e ==>
                  if f.rt == e.rt && s.flood[f].phase != F.Terminated
                  then s'.flood[f].queue == s.flood[f].queue + [Lsa(k, info, n)] else s'.flood[f] == s.flood[f])
            && s'.exch == s.exch[e := s'.exch[e]]
            && var m := if snapshot == [] then 0 else 1;
               && s'.exch[e].buf == snapshot[..m] && s'.exch[e].rest == snapshot[m..] && s'.exch[e].rcv == x.rcv
               && s'.exch[e].send == X.SendWaiting && s'.exch[e].ackArmed && s'.exch[e].pkgNo == x.pkgNo
               && s'.net == s.net + {ExData(e, x.pkgNo, snapshot[..m], |snapshot| > 1)}
  {
    hide ValidTopology;
    PeerFits(t, e);
    var k := LinkKey(t, e);
    TwoWrites(s.db, e.rt, k, HelloEntry(s.db[e.rt], k, info, now), Entry(info, NextNumber(s.db[e.rt], k), now));
  }

  lemma TwoWrites(db: map<nat, Db>, r: nat, k: Key, x: Entry, y: Entry)
    requires r in db
    ensures db[r := db[r][k := x]][r := db[r][k := x][k := y]] == db[r := db[r][k := y]]
  {
    assert db[r][k := x][k := y] == db[r][k := y];
  }

  /** A link going down: its entry is written under the next number, exchange and flooding end, its packet counter
      starts again, and every other running interface is given the entry. Nothing is sent. */
  lemma LinkDownIs(t: Topology, s: Sys, e: Eth, now: int, info: Info)
    requires ValidTopology(t) && Shape(t, s) && e in t.peer
    ensures t.peer[e] in t.peer && e.rt in s.db
    ensures var s' := TakeDown(t, s, e, now, info);
            var k := Key(e.rt, e.ifid, t.peer[e].rt, t.peer[e].ifid);
            var n := NextNumber(s.db[e.rt], k);
            && s'.db == s.db[e.rt := s.db[e.rt][k := Entry(info, n, now)]] && s'.net == s.net
            && s'.flood[e].phase == F.Terminated && s'.flood[e].queue == [] && s'.flood[e].pkgNo == s.flood[e].pkgNo
            && !s'.flood[e].sndArmed && !s'.flood[e].ackArmed
            && (forall f :: f in t.peer && f != e ==>
                  if f.rt == e.rt && s.flood[f].phase != F.Terminated
                  then s'.flood[f].queue == s.flood[f].queue + [Lsa(k, info, n)] else s'.flood[f] == s.flood[f])
            && s'.exch == s.exch[e := s'.exch[e]]
            && s'.exch[e].send == X.SendTerminated && s'.exch[e].rcv == X.RcvTerminated
            && s'.exch[e].rest == [] && s'.exch[e].pkgNo == 0 && !s'.exch[e].ackArmed
  {
    hide ValidTopology;
    PeerFits(t, e);
    var k := LinkKey(t, e);
    TwoWrites(s.db, e.rt, k, HelloEntry(s.db[e.rt], k, info, now), Entry(info, NextNumber(s.db[e.rt], k), now));
  }

  // ----- across a link -----

  /** News that a running interface has to send, and nothing else: three steps later the peer has it, and the
      interface has nothing left to send. */
  lemma NewsCrosses(t: Topology, s: Sys, f: Eth, x: Lsa, now: int) returns (s1: Sys, s2: Sys, s3: Sys)
    requires ValidTopology(t) && Shape(t, s) && f in t.peer && t.peer[f].rt != f.rt
    requires F.Valid(s.flood[f]) && s.flood[f].phase == F.Busy && s.flood[f].queue == [x]
    requires t.peer[f].rt in s.db && x.key.rt != t.peer[f].rt && IsNews(s.db[t.peer[f].rt], x, now)
    ensures var e, no := t.peer[f], s.flood[f].pkgNo + 1;
            && Next(t, s, s1, SendTimer(f)) && Next(t, s1, s2, Deliver(FloodData(f, no, [x]), now))
            && Next(t, s2, s3, Deliver(FloodAck(e, no), now))
            && s3.db == s.db[e.rt := s.db[e.rt][x.key := Entry(x.info, x.num, now)]]
            && s3.flood[f].phase == F.Ready && s3.flood[f].queue == []
  {
    hide ValidTopology, ReceiveAll, Receive, IsNews, Next;
    PeerFits(t, f);
    var e, no := t.peer[f], s.flood[f].pkgNo + 1;
    s1 := SendsOne(t, s, f, x);
    s2 := OneDelivered(t, s1, e, no, x, now);
    NewsIsTaken(t, s1, e, x, now);
    DeliveryAcknowledged(t, s1, s2, FloodData(f, no, [x]), now);
    s3 := AckDelivered(t, s2, f, now);
  }

  lemma SendsOne(t: Topology, s: Sys, f: Eth, x: Lsa) returns (s1: Sys)
    requires ValidTopology(t) && Shape(t, s) && f in t.peer
    requires F.Valid(s.flood[f]) && s.flood[f].phase == F.Busy && s.flood[f].queue == [x]
    ensures Next(t, s, s1, SendTimer(f)) && Shape(t, s1) && s1.db == s.db
    ensures FloodData(f, s.flood[f].pkgNo + 1, [x]) in s1.net
    ensures s1.flood[f].phase == F.AckWaiting && s1.flood[f].queue == [] && s1.flood[f].pkgNo == s.flood[f].pkgNo + 1
  {
    hide ValidTopology;
    s1 := Apply(t, s, SendTimer(f));
    SendTimerIs(t, s, f);
    assert [x][..1] == [x];
  }

  lemma DeliveryAcknowledged(t: Topology, s: Sys, s': Sys, m: Msg, now: int)
    requires ValidTopology(t) && Shape(t, s) && m.FloodData? && Next(t, s, s', Deliver(m, now))
    ensures m.src in t.peer && FloodAck(t.peer[m.src], m.no) in s'.net
  {
    hide ValidTopology, Apply;
    FloodDataIsAcknowledged(t, s, m, now);
  }

  /** The acknowledgement of an interface's packet, with nothing more to send. */
  lemma AckDelivered(t: Topology, s: Sys, f: Eth, now: int) returns (s1: Sys)
    requires ValidTopology(t) && Shape(t, s) && f in t.peer && FloodAck(t.peer[f], s.flood[f].pkgNo) in s.net
    requires s.flood[f].phase == F.AckWaiting && s.flood[f].queue == []
    ensures Next(t, s, s1, Deliver(FloodAck(t.peer[f], s.flood[f].pkgNo), now)) && s1.db == s.db
    ensures f in s1.flood && s1.flood[f].phase == F.Ready && s1.flood[f].queue == []
  {
    hide ValidTopology;
    PeerFits(t, f);
    s1 := Apply(t, s, Deliver(FloodAck(t.peer[f], s.flood[f].pkgNo), now));
  }

  lemma OneReceived(t: Topology, s: Sys, f: Eth, x: Lsa, now: int)
    requires ValidTopology(t) && Shape(t, s) && f in t.peer
    ensures ReceiveAll(t, s, f, [x], now) == Receive(t, s, f, x, now)
  {
    assert [x][1..] == [];
  }

  /** An interface with nothing to send that is given something. */
  lemma QuietThenGiven(f: F.Flood, x: Lsa)
    requires F.Valid(f) && f.phase == F.Ready
    ensures var g := F.Enqueue(f, x); F.Valid(g) && g.phase == F.Busy && g.queue == [x] && g.pkgNo == f.pkgNo
  {
  }

  /** An origination reaches a quiet neighbour: four steps later the neighbour holds the new state under the new
      number, whatever older number it held before. */
  lemma OriginationCrosses(t: Topology, s: Sys, f: Eth, k: Key, info: Info, age: int, now: int)
    returns (s1: Sys, s2: Sys, s3: Sys, s4: Sys)
    requires ValidTopology(t) && Shape(t, s) && f in t.peer && t.peer[f].rt != f.rt && k.rt == f.rt
    requires F.Valid(s.flood[f]) && s.flood[f].phase == F.Ready && f.rt in s.db && t.peer[f].rt in s.db
    requires IsNews(s.db[t.peer[f].rt], Lsa(k, info, NextNumber(s.db[f.rt], k)), now)
    ensures var e, no, n := t.peer[f], s.flood[f].pkgNo + 1, NextNumber(s.db[f.rt], k);
            && Next(t, s, s1, Originate(k, info, age)) && Next(t, s1, s2, SendTimer(f))
            && Next(t, s2, s3, Deliver(FloodData(f, no, [Lsa(k, info, n)]), now))
            && Next(t, s3, s4, Deliver(FloodAck(e, no), now))
            && f.rt in s4.db && k in s4.db[f.rt] && s4.db[f.rt][k].num == n && s4.db[f.rt][k].info == info
            && e.rt in s4.db && k in s4.db[e.rt] && s4.db[e.rt][k] == Entry(info, n, now)
            && s4.flood[f].phase == F.Ready
  {
    hide ValidTopology, SpreadOwn, IsNews, Next, NextNumber, F.Enqueue;
    PeerFits(t, f);
    OriginationIs(t, s, k, info, age);
    s1 := SpreadOwn(t, s, k, info, age);
    OriginationSteps(t, s, k, info, age);
    var x := Lsa(k, info, NextNumber(s.db[f.rt], k));
    OriginationQueues(t, s, f, k, info, age);
    QuietThenGiven(s.flood[f], x);
    s2, s3, s4 := NewsCrosses(t, s1, f, x, now);
  }

  lemma OriginationSteps(t: Topology, s: Sys, k: Key, info: Info, age: int)
    requires ValidTopology(t) && Shape(t, s) && k.rt in t.routers
    ensures Next(t, s, SpreadOwn(t, s, k, info, age), Originate(k, info, age))
  {
  }

  lemma OriginationQueues(t: Topology, s: Sys, f: Eth, k: Key, info: Info, age: int)
    requires ValidTopology(t) && Shape(t, s) && f in t.peer && k.rt == f.rt && f.rt in t.routers && f.rt in s.db
    ensures SpreadOwn(t, s, k, info, age).flood[f] == F.Enqueue(s.flood[f], Lsa(k, info, NextNumber(s.db[f.rt], k)))
  {
  }

  /** A neighbour that sends an older number is put right: its packet is answered with what is held, and three steps
      later the neighbour holds that. */
  lemma OlderIsPutRight(t: Topology, s: Sys, f: Eth, l: Lsa, no: nat, now: int, later: int)
    returns (s1: Sys, s2: Sys, s3: Sys, s4: Sys)
    requires ValidTopology(t) && Shape(t, s) && f in t.peer && t.peer[f].rt != f.rt
    requires F.Valid(s.flood[f]) && s.flood[f].phase == F.Ready && FloodData(t.peer[f], no, [l]) in s.net
    requires f.rt in s.db && t.peer[f].rt in s.db && l.key in s.db[f.rt] && l.key.rt != t.peer[f].rt
    requires var e := s.db[f.rt][l.key];
             && (if l.key.rt == f.rt then l.num != e.num else !OutOfDate(e, now) && l.num < e.num)
             && IsNews(s.db[t.peer[f].rt], Lsa(l.key, e.info, e.num), later)
    ensures var e, held, n := t.peer[f], s.db[f.rt][l.key], s.flood[f].pkgNo + 1;
            && Next(t, s, s1, Deliver(FloodData(e, no, [l]), now)) && Next(t, s1, s2, SendTimer(f))
            && Next(t, s2, s3, Deliver(FloodData(f, n, [Lsa(l.key, held.info, held.num)]), later))
            && Next(t, s3, s4, Deliver(FloodAck(e, n), later))
            && s4.db == s.db[e.rt := s.db[e.rt][l.key := Entry(held.info, held.num, later)]]
  {
    hide ValidTopology, IsNews, ReceiveAll, Receive, Next, F.Enqueue, OutOfDate;
    PeerFits(t, f);
    var held := s.db[f.rt][l.key];
    var x := Lsa(l.key, held.info, held.num);
    s1 := OneDelivered(t, s, f, no, l, now);
    AnsweredWith(t, s, f, l, now);
    QuietThenGiven(s.flood[f], x);
    s2, s3, s4 := NewsCrosses(t, s1, f, x, later);
  }

  lemma OneDelivered(t: Topology, s: Sys, f: Eth, no: nat, l: Lsa, now: int) returns (s1: Sys)
    requires ValidTopology(t) && Shape(t, s) && f in t.peer && t.peer[f] in t.peer
    requires FloodData(t.peer[f], no, [l]) in s.net
    ensures Next(t, s, s1, Deliver(FloodData(t.peer[f], no, [l]), now))
    ensures s1 == Receive(t, s, f, l, now).(net := s1.net) && Shape(t, s1)
  {
    hide ValidTopology, ReceiveAll, Receive;
    PeerFits(t, f);
    s1 := Apply(t, s, Deliver(FloodData(t.peer[f], no, [l]), now));
    OneReceived(t, s, f, l, now);
  }

  lemma AnsweredWith(t: Topology, s: Sys, f: Eth, l: Lsa, now: int)
    requires ValidTopology(t) && Shape(t, s) && f in t.peer && f.rt in s.db && l.key in s.db[f.rt]
    requires var e := s.db[f.rt][l.key];
             if l.key.rt == f.rt then l.num != e.num else !OutOfDate(e, now) && l.num < e.num
    ensures var e, s' := s.db[f.rt][l.key], Receive(t, s, f, l, now);
            s'.db == s.db && s'.flood == s.flood[f := F.Enqueue(s.flood[f], Lsa(l.key, e.info, e.num))]
  {
    hide ValidTopology;
  }
}

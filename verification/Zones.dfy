/**
  A router in its area: the database and the backbone interfaces, updated in place
  by received packets, timers and hello notifications (lsd/lsd_utils.c,
  lsd/lsd_flood.c, lsd/lsd_handler.c). Every handler states the whole new state of
  the router, and keeps the protocol state machine intact.
 */
module Zones {
  import opened LinkStates
  import opened AreaNetwork
  import opened BackboneEths
  import F = FloodLink
  import X = ExchangeLink

  /** The state octet after a high priority notification: bit 1 says whether the link is up. */
  function HelloState(db: Db, k: Key, up: bool): nat {
    if k !in db then (if up then 2 else 0)
    else
      var before := db[k].info.state;
      if up == (before / 2 % 2 == 1) then before else if up then before + 2 else before - 2
  }

  /** Only bit 1 changes: it says afterwards whether the link is up. An unknown link counts as 0. */
  lemma HelloStateIs(db: Db, k: Key, up: bool)
    ensures var before, after := if k in db then db[k].info.state else 0, HelloState(db, k, up);
            (after / 2 % 2 == 1 <==> up) && after / 4 == before / 4 && after % 2 == before % 2
  {
    var before, after := if k in db then db[k].info.state else 0, HelloState(db, k, up);
    var high, low := before / 4, before % 2;
    assert before == 4 * high + low || before == 4 * high + low + 2;
    assert after == 4 * high + low + if up then 2 else 0;
  }

  /** A router: its database and its interfaces. */
  datatype Local = Local(db: Db, ports: seq<Port>)

  /** From ps to qs, interface j, if it runs, has l to send after what it had, and nothing else of it has changed. */
  predicate Gains(ps: seq<Port>, qs: seq<Port>, j: nat, l: Lsa) {
    && j < |ps| == |qs| && qs[j] == ps[j].(flood := qs[j].flood)
    && (if ps[j].flood.phase == F.Terminated then qs[j].flood == ps[j].flood
        else qs[j].flood.queue == ps[j].flood.queue + [l])
  }

  /** Every interface but `except` gains l. */
  predicate AllGain(ps: seq<Port>, qs: seq<Port>, l: Lsa, except: nat) {
    |qs| == |ps| && forall j :: 0 <= j < |ps| ==> if j == except then qs[j] == ps[j] else Gains(ps, qs, j, l)
  }

  /** Interface i alone gains l. */
  predicate OneGains(ps: seq<Port>, qs: seq<Port>, l: Lsa, i: nat) {
    |qs| == |ps| && forall j :: 0 <= j < |ps| ==> if j == i then Gains(ps, qs, j, l) else qs[j] == ps[j]
  }

  /** The router has something to set right: a number of its own that differs, or an older one of another router. */
  predicate Disputes(db: Db, self: nat, l: Lsa, now: int) {
    && l.key in db
    && if l.key.rt == self then db[l.key].num != l.num
       else !OutOfDate(db[l.key], now) && l.num < db[l.key].num
  }

  /** flood_lsa_forward over a router's interfaces, all but `except`. */
  function SpreadLocal(ports: seq<Port>, l: Lsa, except: nat): seq<Port> {
    seq(|ports|, j requires 0 <= j < |ports| => if j == except then ports[j] else Queued(ports[j], l))
  }

  function AcceptLocal(r: Local, self: nat, i: nat, l: Lsa, now: int): (r': Local)
    requires i < |r.ports|
    ensures |r'.ports| == |r.ports|
  {
    var o := Accept(r.db, self, l, now);
    match o.reaction
    case Silent => r.(db := o.db)
    case Forward(l') => r.(db := o.db, ports := SpreadLocal(r.ports, l', i))
    case Back(l') => r.(db := o.db, ports := r.ports[i := Queued(r.ports[i], l')])
  }

  /** News goes to every other interface, a dispute back to this one, and anything else is ignored. */
  lemma AcceptLocalIs(r: Local, self: nat, i: nat, l: Lsa, now: int)
    requires i < |r.ports|
    ensures var r' := AcceptLocal(r, self, i, l, now);
            if l.key.rt != self && IsNews(r.db, l, now) then
              r'.db == r.db[l.key := Entry(l.info, l.num, now)] && AllGain(r.ports, r'.ports, l, i)
            else if Disputes(r.db, self, l, now) then
              var e := r.db[l.key];
              r'.db == r.db && OneGains(r.ports, r'.ports, Lsa(l.key, e.info, e.num), i)
            else r' == r
  {
  }

  function AcceptAllLocal(r: Local, self: nat, i: nat, ls: seq<Lsa>, now: int): (r': Local)
    requires i < |r.ports|
    ensures |r'.ports| == |r.ports|
    decreases |ls|
  {
    if ls == [] then r else AcceptAllLocal(AcceptLocal(r, self, i, ls[0], now), self, i, ls[1..], now)
  }

  /** A flood data packet at interface i: acknowledged and taken in. */
  function FloodDataLocal(r: Local, self: nat, i: nat, no: nat, ls: seq<Lsa>, now: int): Local
    requires i < |r.ports|
  {
    AcceptAllLocal(r.(ports := r.ports[i := Sends(r.ports[i], FloodAck(r.ports[i].me, no))]), self, i, ls, now)
  }

  /** An exchange data packet at interface i, which takes it in only while it listens. */
  function ExDataLocal(r: Local, self: nat, i: nat, no: nat, ls: seq<Lsa>, more: bool, now: int): Local
    requires i < |r.ports|
  {
    var r1 := r.(ports := r.ports[i := Heard(r.ports[i])]);
    if !X.Listens(r.ports[i].exch, ls) then r1 else
      var r2 := AcceptAllLocal(r1, self, i, ls, now);
      r2.(ports := r2.ports[i := Answered(r2.ports[i], no, more)])
  }

  function OwnLocal(r: Local, k: Key, info: Info, age: int): Local {
    var entry := OwnEntry(r.db, k, info, age);
    r.(db := r.db[k := entry], ports := SpreadLocal(r.ports, ToLsa(k, entry), |r.ports|))
  }

  lemma OwnLocalIs(r: Local, k: Key, info: Info, age: int)
    ensures var r', n := OwnLocal(r, k, info, age), NextNumber(r.db, k);
            && k in r'.db && r'.db == r.db[k := r'.db[k]] && r'.db[k].num == n && r'.db[k].info == info
            && AllGain(r.ports, r'.ports, Lsa(k, info, n), |r.ports|)
  {
  }

  function UpLocal(r: Local, i: nat, k: Key, info: Info, now: int, snapshot: seq<Lsa>): Local
    requires i < |r.ports|
  {
    var r1 := Local(r.db[k := HelloEntry(r.db, k, info, now)], r.ports[i := Started(r.ports[i], snapshot)]);
    OwnLocal(r1, k, info, now)
  }

  function DownLocal(r: Local, i: nat, k: Key, info: Info, now: int): Local
    requires i < |r.ports|
  {
    var p := r.ports[i];
    var r0 := Local(r.db[k := HelloEntry(r.db, k, info, now)], r.ports[i := p.(exch := X.Stop(p.exch))]);
    var r1 := OwnLocal(r0, k, info, now);
    r1.(ports := r1.ports[i := r1.ports[i].(flood := F.Stop(r1.ports[i].flood))])
  }

  /** The key under which an interface advertises its link to a neighbour. */
  function PortKey(p: Port, far: Eth): Key {
    Key(p.me.rt, p.me.ifid, far.rt, far.ifid)
  }

  /** The state that the handler writes into the entry for a link that went up or down. */
  function HelloInfo(db: Db, k: Key, addr: nat, metric: nat, up: bool): Info {
    Info(addr, metric, HelloState(db, k, up))
  }

  /** A high priority hello: the dead timer is armed again, and a link that was down comes up. */
  function HelloHighLocal(r: Local, i: nat, from: Eth, addr: nat, metric: nat, now: int, snapshot: seq<Lsa>): Local
    requires i < |r.ports|
  {
    var p := r.ports[i];
    if p.hello.highUp then r
    else
      var h := p.hello.(highUp := true, deadHighArmed := true, neighbor := from, notified := p.hello.notified + [true]);
      var k := PortKey(p, from);
      UpLocal(r.(ports := r.ports[i := p.(hello := h)]), i, k, HelloInfo(r.db, k, addr, metric, true), now, snapshot)
  }

  /** A high priority dead timer: the link goes down. */
  function DeadHighLocal(r: Local, i: nat, addr: nat, metric: nat, now: int): Local
    requires i < |r.ports|
  {
    var p := r.ports[i];
    var h := p.hello.(highUp := false, deadHighArmed := false, notified := p.hello.notified + [false]);
    var k := PortKey(p, p.hello.neighbor);
    DownLocal(r.(ports := r.ports[i := p.(hello := h)]), i, k, HelloInfo(r.db, k, addr, metric, false), now)
  }

  /** A low priority hello: its dead timer is armed again, and a change of status names the neighbour anew. */
  function HelloLowLocal(r: Local, i: nat, from: Eth): Local
    requires i < |r.ports|
  {
    var p := r.ports[i];
    var h := p.hello.(lowUp := true, deadLowArmed := true,
                      neighbor := if p.hello.lowUp then p.hello.neighbor else from);
    r.(ports := r.ports[i := p.(hello := h)])
  }

  /** A low priority dead timer. */
  function DeadLowLocal(r: Local, i: nat): Local
    requires i < |r.ports|
  {
    var p := r.ports[i];
    r.(ports := r.ports[i := p.(hello := p.hello.(lowUp := false, deadLowArmed := false))])
  }

  class Zone {
    const deviceId: nat
    const eths: seq<BackboneEth>
    var db: Db

    ghost predicate Wired()
      reads this, eths
    {
      && (forall i :: 0 <= i < |eths| ==> eths[i].me.rt == deviceId && F.Valid(eths[i].Flood()))
      && (forall i, j :: 0 <= i < j < |eths| ==> eths[i] != eths[j] && eths[i].me != eths[j].me)
    }

    ghost predicate Valid()
      reads this, eths
    {
      Wired() && forall i :: 0 <= i < |eths| ==> eths[i].Valid()
    }

    ghost function View(): (r: Local)
      reads this, eths
      ensures |r.ports| == |eths| && r.db == db
      ensures forall i :: 0 <= i < |eths| ==> r.ports[i] == eths[i].State()
    {
      Local(db, seq(|eths|, i requires 0 <= i < |eths| reads eths => eths[i].State()))
    }

    /** A router with an interface for each id, all down, and an empty database. */
    constructor (deviceId: nat, ifids: seq<nat>)
      requires forall i, j :: 0 <= i < j < |ifids| ==> ifids[i] != ifids[j]
      ensures Valid() && this.deviceId == deviceId && db == map[] && |eths| == |ifids|
      ensures forall i :: 0 <= i < |eths| ==> fresh(eths[i]) && eths[i].me == Eth(deviceId, ifids[i])
      ensures View() == Local(map[], seq(|ifids|, i requires 0 <= i < |ifids| => Idle(Eth(deviceId, ifids[i]))))
    {
      var es: seq<BackboneEth> := [];
      for i := 0 to |ifids|
        invariant |es| == i
        invariant forall j :: 0 <= j < i ==>
          fresh(es[j]) && es[j].Valid() && es[j].me == Eth(deviceId, ifids[j]) && es[j].State() == Idle(es[j].me)
        invariant forall j, k :: 0 <= j < k < i ==> es[j] != es[k]
      {
        var e := new BackboneEth(Eth(deviceId, ifids[i]));
        es := es + [e];
      }
      this.deviceId, this.eths, db := deviceId, es, map[];
    }

    /** flood_lsa_forward; with no interface excepted, flood_lsa_spread. */
    method Spread(l: Lsa, except: nat)
      requires Wired()
      modifies eths`phase, eths`queue, eths`sndArmed
      ensures Wired() && View() == old(View()).(ports := SpreadLocal(old(View()).ports, l, except))
      ensures forall i :: 0 <= i < |eths| && old(eths[i].Valid()) ==> eths[i].Valid()
    {
      hide F.Valid, F.Enqueue, BackboneEth.HelloValid;
      var i := 0;
      while i < |eths|
        invariant 0 <= i <= |eths| && Wired()
        invariant forall j :: 0 <= j < |eths| ==>
          eths[j].Flood() == if j < i && j != except then F.Enqueue(old(eths[j].Flood()), l) else old(eths[j].Flood())
        invariant forall j :: 0 <= j < |eths| && old(eths[j].Valid()) ==> eths[j].Valid()
      {
        if i != except {
          eths[i].FloodAdd(l);
        }
        i := i + 1;
      }
    }

    /** flood_add_flood_lsa on interface i. */
    method FloodBack(i: nat, l: Lsa)
      requires Valid() && i < |eths|
      modifies eths`phase, eths`queue, eths`sndArmed
      ensures Valid() && View() == old(View()).(ports := old(View()).ports[i := Queued(old(View()).ports[i], l)])
    {
      eths[i].FloodAdd(l);
    }

    /** accept_lsa_into_lsdb for an advertisement that came in on interface i. */
    method AcceptLsa(i: nat, l: Lsa, now: int)
      requires Valid() && i < |eths| && l.key.rt != 0
      modifies this`db, eths`phase, eths`queue, eths`sndArmed
      ensures Valid() && View() == AcceptLocal(old(View()), deviceId, i, l, now)
      ensures if l.key.rt != deviceId && IsNews(old(db), l, now) then
                db == old(db)[l.key := Entry(l.info, l.num, now)] && AllGain(old(View()).ports, View().ports, l, i)
              else if Disputes(old(db), deviceId, l, now) then
                var e := old(db)[l.key];
                db == old(db) && OneGains(old(View()).ports, View().ports, Lsa(l.key, e.info, e.num), i)
              else View() == old(View())
    {
      hide F.Valid, F.Enqueue, SpreadLocal, BackboneEth.HelloValid, AllGain, OneGains;
      AcceptLocalIs(View(), deviceId, i, l, now);
      if l.key.rt == deviceId {
        if l.key in db && db[l.key].num != l.num {
          FloodBack(i, ToLsa(l.key, db[l.key]));
        }
        return;
      }
      if l.key !in db || OutOfDate(db[l.key], now) || db[l.key].num < l.num {
        db := db[l.key := ToEntry(l, now)];
        assert View().ports == old(View()).ports;
        Spread(l, i);
      } else if l.num < db[l.key].num {
        FloodBack(i, ToLsa(l.key, db[l.key]));
      }
    }

    /** The loop over a packet in flood_pkt_received and link_lsa_received. */
    method AcceptAll(i: nat, ls: seq<Lsa>, now: int)
      requires Valid() && i < |eths| && (forall j :: 0 <= j < |ls| ==> ls[j].key.rt != 0)
      modifies this`db, eths`phase, eths`queue, eths`sndArmed
      ensures Valid() && View() == AcceptAllLocal(old(View()), deviceId, i, ls, now)
    {
      hide F.Valid, SpreadLocal, AcceptLocal, BackboneEth.HelloValid;
      var n := 0;
      while n < |ls|
        invariant 0 <= n <= |ls| && Valid()
        invariant AcceptAllLocal(View(), deviceId, i, ls[n..], now) == AcceptAllLocal(old(View()), deviceId, i, ls, now)
      {
        AcceptLsa(i, ls[n], now);
        assert ls[n..][1..] == ls[n + 1..];
        n := n + 1;
      }
    }

    /** The data branch of flood_pkt_received. */
    method FloodDataReceived(i: nat, no: nat, ls: seq<Lsa>, now: int)
      requires Valid() && i < |eths| && (forall j :: 0 <= j < |ls| ==> ls[j].key.rt != 0)
      modifies this`db, eths`phase, eths`queue, eths`sndArmed, eths`out
      ensures Valid() && View() == FloodDataLocal(old(View()), deviceId, i, no, ls, now)
    {
      hide F.Valid, AcceptAllLocal, BackboneEth.HelloValid;
      ghost var ports := View().ports;
      eths[i].out := eths[i].out + [FloodAck(eths[i].me, no)];
      assert View().ports == ports[i := Sends(ports[i], FloodAck(ports[i].me, no))];
      AcceptAll(i, ls, now);
    }

    /** The data branch of exchange_pkt_received, which acknowledges after it has taken everything in. */
    method ExchangeDataReceived(i: nat, no: nat, ls: seq<Lsa>, more: bool, now: int)
      requires Valid() && i < |eths| && (forall j :: 0 <= j < |ls| ==> ls[j].key.rt != 0)
      modifies this`db, eths`phase, eths`queue, eths`sndArmed, eths`out, eths`rcv
      ensures Valid() && View() == ExDataLocal(old(View()), deviceId, i, no, ls, more, now)
    {
      hide F.Valid, AcceptAllLocal, X.Listens, BackboneEth.HelloValid;
      ghost var ports := View().ports;
      var listens := eths[i].ExchangeListen(ls);
      assert View().ports == ports[i := Heard(ports[i])];
      if listens {
        AcceptAll(i, ls, now);
        Answer(i, no, more);
      }
    }

    /** The end of that branch. */
    method Answer(i: nat, no: nat, more: bool)
      requires Valid() && i < |eths|
      modifies eths`out, eths`rcv
      ensures Valid()
      ensures View() == old(View()).(ports := old(View()).ports[i := Answered(old(View()).ports[i], no, more)])
    {
      hide F.Valid, BackboneEth.HelloValid;
      eths[i].ExchangeProcessed(no, more);
    }

    /** flood_spread_backbone_link_state. */
    method SpreadOwn(k: Key, info: Info, age: int)
      requires Wired()
      modifies this`db, eths`phase, eths`queue, eths`sndArmed
      ensures Wired() && View() == OwnLocal(old(View()), k, info, age)
      ensures k in db && db[k].info == info && db[k].num == if k in old(db) then old(db)[k].num + 1 else 1
      ensures AllGain(old(View()).ports, View().ports, Lsa(k, info, db[k].num), |eths|)
      ensures forall i :: 0 <= i < |eths| && old(eths[i].Valid()) ==> eths[i].Valid()
    {
      hide F.Valid, F.Enqueue, BackboneEth.HelloValid, AllGain;
      OwnLocalIs(View(), k, info, age);
      var entry := OwnEntry(db, k, info, age);
      db := db[k := entry];
      Spread(ToLsa(k, entry), |eths|);
    }

    /** The key under which interface i advertises its link. */
    function LinkKey(i: nat): Key
      requires i < |eths|
      reads this, eths
    {
      Key(eths[i].me.rt, eths[i].me.ifid, eths[i].neighbor.rt, eths[i].neighbor.ifid)
    }

    /** exchange_send_start and flood_start on interface i, whose link came up. */
    method StartLink(i: nat, snapshot: seq<Lsa>)
      requires Wired() && i < |eths|
      requires eths[i].HelloValid() && eths[i].highUp && eths[i].send == X.SendTerminated
      requires eths[i].phase == F.Terminated
      modifies eths[i]
      ensures Wired()
      ensures View() == old(View()).(ports := old(View()).ports[i := Started(old(View()).ports[i], snapshot)])
      ensures eths[i].Valid()
    {
      hide F.Valid, Started, BackboneEth.HelloValid;
      eths[i].StartLink(snapshot);
    }

    /** The first write of hello_changed_handler. */
    method WriteEntry(k: Key, info: Info, now: int)
      requires Wired()
      modifies this`db
      ensures Wired() && View() == old(View()).(db := old(db)[k := HelloEntry(old(db), k, info, now)])
    {
      hide F.Valid, HelloEntry;
      ghost var ports := View().ports;
      db := db[k := HelloEntry(db, k, info, now)];
      assert View().ports == ports;
    }

    /** The high priority branch of hello_changed_handler for a link that came up; the exchange starts with what
        cr_lsdb_get_links_state lists at that point. */
    method LinkUp(i: nat, info: Info, now: int, snapshot: seq<Lsa>)
      requires Wired() && i < |eths| && eths[i].neighbor.rt != 0
      requires forall j :: 0 <= j < |eths| && j != i ==> eths[j].Valid()
      requires eths[i].HelloValid() && eths[i].highUp && eths[i].send == X.SendTerminated
      requires eths[i].phase == F.Terminated
      requires IsSnapshot(db[LinkKey(i) := HelloEntry(db, LinkKey(i), info, now)], snapshot)
      modifies this`db, eths
      ensures Valid() && View() == UpLocal(old(View()), i, old(LinkKey(i)), info, now, snapshot)
    {
      hide F.Valid, F.Enqueue, F.Start, OwnLocal, Started, IsSnapshot, BackboneEth.HelloValid, AllGain;
      var k := LinkKey(i);
      WriteEntry(k, info, now);
      StartLink(i, snapshot);
      SpreadOwn(k, info, now);
    }

    /** exchange_terminate on interface i. */
    method StopExchange(i: nat)
      requires Wired() && i < |eths|
      modifies eths[i]
      ensures Wired() && X.Valid(eths[i].Exch()) && eths[i].send == X.SendTerminated
      ensures var p := old(View()).ports[i];
              View() == old(View()).(ports := old(View()).ports[i := p.(exch := X.Stop(p.exch))])
      ensures old(eths[i].HelloValid()) ==> eths[i].HelloValid()
    {
      hide F.Valid, BackboneEth.HelloValid;
      eths[i].ExchangeTerminate();
    }

    /** flood_terminate on interface i, whose link is down. */
    method StopFlooding(i: nat)
      requires Wired() && i < |eths|
      requires eths[i].HelloValid() && !eths[i].highUp && X.Valid(eths[i].Exch()) && eths[i].send == X.SendTerminated
      modifies eths[i]
      ensures Wired() && eths[i].Valid()
      ensures var p := old(View()).ports[i];
              View() == old(View()).(ports := old(View()).ports[i := p.(flood := F.Stop(p.flood))])
    {
      hide X.Valid, BackboneEth.HelloValid;
      eths[i].FloodTerminate();
    }

    /** The same for a link that went down. */
    method LinkDown(i: nat, info: Info, now: int)
      requires Wired() && i < |eths| && eths[i].neighbor.rt != 0
      requires forall j :: 0 <= j < |eths| && j != i ==> eths[j].Valid()
      requires eths[i].HelloValid() && !eths[i].highUp
      modifies this`db, eths
      ensures Valid() && View() == DownLocal(old(View()), i, old(LinkKey(i)), info, now)
    {
      hide F.Valid, X.Valid, F.Enqueue, F.Stop, X.Stop, OwnLocal, BackboneEth.HelloValid, AllGain, HelloEntry;
      var k := LinkKey(i);
      WriteEntry(k, info, now);
      StopExchange(i);
      SpreadOwn(k, info, now);
      StopFlooding(i);
    }

    /** hello_on_high_packet_received: a change of status brings the link up. */
    method HelloHighReceived(i: nat, from: Eth, addr: nat, metric: nat, now: int, snapshot: seq<Lsa>)
      requires Valid() && i < |eths| && from.rt != 0
      requires !eths[i].highUp ==> var k := PortKey(eths[i].State(), from);
        IsSnapshot(db[k := HelloEntry(db, k, HelloInfo(db, k, addr, metric, true), now)], snapshot)
      modifies this`db, eths
      ensures Valid() && View() == HelloHighLocal(old(View()), i, from, addr, metric, now, snapshot)
    {
      hide F.Valid, UpLocal, IsSnapshot, HelloState;
      ghost var ports := View().ports;
      var cameUp := eths[i].HighHello(from);
      if cameUp {
        ghost var h := ports[i].hello.(highUp := true, deadHighArmed := true, neighbor := from,
                                       notified := ports[i].hello.notified + [true]);
        assert View().ports == ports[i := ports[i].(hello := h)];
        LinkUp(i, HelloInfo(db, LinkKey(i), addr, metric, true), now, snapshot);
      } else {
        assert eths[i].State() == ports[i];
        assert View().ports == ports;
      }
    }

    /** dead_timer_high: the link goes down. */
    method DeadTimerHigh(i: nat, addr: nat, metric: nat, now: int)
      requires Valid() && i < |eths| && eths[i].deadHighArmed
      modifies this`db, eths
      ensures Valid() && View() == DeadHighLocal(old(View()), i, addr, metric, now)
    {
      hide F.Valid, DownLocal, HelloState;
      ghost var ports := View().ports;
      eths[i].HighDead();
      ghost var h := ports[i].hello.(highUp := false, deadHighArmed := false,
                                     notified := ports[i].hello.notified + [false]);
      assert View().ports == ports[i := ports[i].(hello := h)];
      LinkDown(i, HelloInfo(db, LinkKey(i), addr, metric, false), now);
    }

    /** hello_on_low_packet_received up to the notification. */
    method HelloLowReceived(i: nat, from: Eth)
      requires Valid() && i < |eths| && from.rt != 0
      modifies eths`deadLowArmed, eths`lowUp, eths`neighbor
      ensures Valid() && View() == HelloLowLocal(old(View()), i, from)
    {
      hide F.Valid;
      var cameUp := eths[i].LowHello(from);
    }

    /** dead_timer_low up to the notification. */
    method DeadTimerLow(i: nat)
      requires Valid() && i < |eths| && eths[i].deadLowArmed
      modifies eths`deadLowArmed, eths`lowUp
      ensures Valid() && View() == DeadLowLocal(old(View()), i)
    {
      hide F.Valid;
      eths[i].LowDead();
    }

    /** flood_send_lsa on interface i. */
    method FloodTimer(i: nat)
      requires Valid() && i < |eths| && eths[i].sndArmed
      modifies eths
      ensures Valid() && View() == old(View()).(ports := old(View()).ports[i := Flushed(old(View()).ports[i])])
    {
      hide F.Valid, Flushed, BackboneEth.HelloValid;
      eths[i].FloodTimer();
    }

    /** flood_ack_timeout on interface i. */
    method FloodAckTimer(i: nat)
      requires Valid() && i < |eths| && eths[i].floodAckArmed
      modifies eths
      ensures Valid() && View() == old(View()).(ports := old(View()).ports[i := Resent(old(View()).ports[i])])
    {
      hide F.Valid, BackboneEth.HelloValid;
      eths[i].FloodAckTimeout();
    }

    /** The acknowledgement branch of flood_pkt_received. */
    method FloodAckReceived(i: nat, no: nat)
      requires Valid() && i < |eths|
      modifies eths
      ensures Valid()
      ensures var p := old(View()).ports[i];
              View() == old(View()).(ports := old(View()).ports[i := p.(flood := F.AckReceived(p.flood, no))])
    {
      hide F.Valid, BackboneEth.HelloValid;
      eths[i].FloodAckReceived(no);
    }

    /** ack_time_excceed on interface i. */
    method ExchangeTimer(i: nat)
      requires Valid() && i < |eths| && eths[i].exAckArmed
      modifies eths
      ensures Valid() && View() == old(View()).(ports := old(View()).ports[i := ExResent(old(View()).ports[i])])
    {
      hide F.Valid, BackboneEth.HelloValid;
      eths[i].ExchangeAckTimeout();
    }

    /** The acknowledgement branch of exchange_pkt_received. */
    method ExchangeAckReceived(i: nat, no: nat)
      requires Valid() && i < |eths|
      modifies eths
      ensures Valid() && View() == old(View()).(ports := old(View()).ports[i := ExAcked(old(View()).ports[i], no)])
    {
      hide F.Valid, X.Valid, BackboneEth.HelloValid, X.AckReceived, ExAcked;
      eths[i].ExchangeAckReceived(no);
    }
  }
}

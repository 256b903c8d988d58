/**
  Sequence safety of an area, along every run: with link failures, ageing and all
  packet faults included.
 */
module AreaSafety {
  import opened LinkStates
  import opened AreaNetwork

  /**
    From db to db', at router r: keys stay, own entries are untouched, and a number
    that went down belonged to a learnt entry past its freshness limit.
   */
  predicate SafeReception(db: Db, db': Db, r: nat, now: int) {
    && (forall k :: k in db ==> k in db' && (k.rt == r ==> db'[k] == db[k]))
    && (forall k :: k in db' && k.rt == r ==> k in db)
    && (forall k :: k in db && db'[k].num < db[k].num ==> OutOfDate(db[k], now))
    && (forall k :: k in db' ==> (k in db && db'[k] == db[k]) || db'[k].age == now)
  }

  lemma AcceptSafe(db: Db, r: nat, l: Lsa, now: int)
    ensures SafeReception(db, Accept(db, r, l, now).db, r, now)
  {
  }

  lemma SafeTransitive(a: Db, b: Db, c: Db, r: nat, now: int)
    requires SafeReception(a, b, r, now) && SafeReception(b, c, r, now)
    ensures SafeReception(a, c, r, now)
  {
  }

  /** Only router r's database differs, and safely. */
  ghost predicate SafeAt(t: Topology, s: Sys, s': Sys, r: nat, now: int)
    requires Shape(t, s) && Shape(t, s') && r in t.routers
  {
    SafeReception(s.db[r], s'.db[r], r, now) && forall q :: q in t.routers && q != r ==> s'.db[q] == s.db[q]
  }

  lemma ReceiveSafe(t: Topology, s: Sys, f: Eth, l: Lsa, now: int)
    requires ValidTopology(t) && Shape(t, s) && f in t.peer
    ensures SafeAt(t, s, Receive(t, s, f, l, now), f.rt, now)
  {
    hide SafeReception, Spread, Accept;
    AcceptSafe(s.db[f.rt], f.rt, l, now);
  }

  lemma SafeAtTransitive(t: Topology, s: Sys, s1: Sys, s': Sys, r: nat, now: int)
    requires Shape(t, s) && Shape(t, s1) && Shape(t, s') && r in t.routers
    requires SafeAt(t, s, s1, r, now) && SafeAt(t, s1, s', r, now)
    ensures SafeAt(t, s, s', r, now)
  {
    SafeTransitive(s.db[r], s1.db[r], s'.db[r], r, now);
  }

  lemma {:induction false} ReceiveAllSafe(t: Topology, s: Sys, f: Eth, ls: seq<Lsa>, now: int)
    requires ValidTopology(t) && Shape(t, s) && f in t.peer
    ensures SafeAt(t, s, ReceiveAll(t, s, f, ls, now), f.rt, now)
    decreases |ls|
  {
    if ls == [] {
    } else {
      hide SafeAt, Receive;
      var s1 := Receive(t, s, f, ls[0], now);
      ReceiveSafe(t, s, f, ls[0], now);
      ReceiveAllSafe(t, s1, f, ls[1..], now);
      SafeAtTransitive(t, s, s1, ReceiveAll(t, s1, f, ls[1..], now), f.rt, now);
    }
  }

  /** Router r learns at this step that its entry for k is past the limit. */
  predicate FoundStale(t: Topology, s: Sys, step: Step, r: nat, k: Key)
    requires ValidTopology(t) && Shape(t, s)
  {
    && step.Deliver? && step.m in s.net && t.peer[step.m.src].rt == r
    && k.rt != r && r in t.routers && k in s.db[r] && OutOfDate(s.db[r][k], step.now)
  }

  /** The advertisements a packet carries. */
  function Carried(m: Msg): seq<Lsa> {
    match m
    case FloodData(_, _, ls) => ls
    case ExData(_, _, ls, _) => ls
    case _ => []
  }

  /** At this step router r takes a lower number for k from an advertisement in the packet delivered to it, in place of
      an entry learnt from another router that was past its limit. */
  ghost predicate Replaced(t: Topology, s: Sys, s': Sys, step: Step, r: nat, k: Key)
    requires ValidTopology(t) && Shape(t, s) && Shape(t, s')
  {
    && FoundStale(t, s, step, r, k) && k in s'.db[r] && s'.db[r][k].num < s.db[r][k].num
    && exists l :: l in Carried(step.m) && l.key == k && l.num == s'.db[r][k].num
  }

  lemma AcceptedFrom(db: Db, self: nat, l: Lsa, now: int, k: Key)
    ensures var db' := Accept(db, self, l, now).db;
            k in db' ==> (k in db && db'[k] == db[k]) || (l.key == k && l.num == db'[k].num)
  {
  }

  lemma ReceiveDb(t: Topology, s: Sys, f: Eth, l: Lsa, now: int)
    requires ValidTopology(t) && Shape(t, s) && f in t.peer
    ensures f.rt in t.routers && Receive(t, s, f, l, now).db[f.rt] == Accept(s.db[f.rt], f.rt, l, now).db
  {
    hide Accept, Spread, ValidTopology;
    PeerFits(t, f);
  }

  /** What a router holds of k after taking advertisements in, it held before, or one of them says. */
  lemma {:induction false} HeldOrCarried(t: Topology, s: Sys, f: Eth, ls: seq<Lsa>, now: int, k: Key)
    requires ValidTopology(t) && Shape(t, s) && f in t.peer
    ensures f.rt in t.routers
    ensures var db, db' := s.db[f.rt], ReceiveAll(t, s, f, ls, now).db[f.rt];
            k in db' ==> (k in db && db'[k] == db[k]) || exists l :: l in ls && l.key == k && l.num == db'[k].num
    decreases |ls|
  {
    hide ValidTopology, Receive, Accept;
    PeerFits(t, f);
    if ls != [] {
      var s1 := Receive(t, s, f, ls[0], now);
      ReceiveDb(t, s, f, ls[0], now);
      AcceptedFrom(s.db[f.rt], f.rt, ls[0], now, k);
      HeldOrCarried(t, s1, f, ls[1..], now, k);
      var db' := ReceiveAll(t, s, f, ls, now).db[f.rt];
      if l :| l in ls[1..] && l.key == k && k in db' && l.num == db'[k].num {
        assert l in ls;
      } else if k in db' && !(k in s.db[f.rt] && db'[k] == s.db[f.rt][k]) {
        assert ls[0] in ls && ls[0].key == k && ls[0].num == db'[k].num;
      }
    }
  }

  /** What one step may do to router r's entry for k. */
  ghost predicate SafeStep(t: Topology, s: Sys, s': Sys, step: Step, r: nat, k: Key)
    requires ValidTopology(t) && Shape(t, s) && Shape(t, s') && r in t.routers
  {
    var db, db' := s.db[r], s'.db[r];
    && (step.Deliver? && k.rt == r ==> (k in db <==> k in db') && (k in db ==> db'[k] == db[k]))
    && (k in db ==> k in db' && (db'[k].num < db[k].num ==> Replaced(t, s, s', step, r, k)))
  }

  lemma OnDataDb(t: Topology, s: Sys, f: Eth, no: nat, lsas: seq<Lsa>, more: bool, now: int)
    requires ValidTopology(t) && Shape(t, s) && f in t.peer
    ensures OnFloodData(t, s, f, no, lsas, now).db == ReceiveAll(t, s, f, lsas, now).db
    ensures OnExData(t, s, f, no, lsas, more, now).db in {s.db, ReceiveAll(t, s, f, lsas, now).db}
  {
    hide ReceiveAll;
  }

  lemma ArriveSafe(t: Topology, s: Sys, step: Step, r: nat, k: Key)
    requires ValidTopology(t) && Shape(t, s) && step.Deliver? && step.m in s.net && r in t.routers
    ensures SafeStep(t, s, Arrive(t, s, step.m, step.now), step, r, k)
  {
    hide ReceiveAll, OutOfDate, OnFloodData, OnExData, ValidTopology;
    PeerFits(t, step.m.src);
    var m, f := step.m, t.peer[step.m.src];
    if m.FloodData? || m.ExData? {
      OnDataDb(t, s, f, m.no, m.lsas, m.ExData? && m.more, step.now);
      ReceiveAllSafe(t, s, f, m.lsas, step.now);
      HeldOrCarried(t, s, f, m.lsas, step.now, k);
    }
  }

  /** Router r keeps its entry for k and loses no sequence number. */
  ghost predicate Grown(t: Topology, s: Sys, s': Sys, r: nat, k: Key)
    requires ValidTopology(t) && Shape(t, s) && Shape(t, s') && r in t.routers
  {
    k in s.db[r] ==> k in s'.db[r] && s.db[r][k].num <= s'.db[r][k].num
  }

  lemma OwnSafe(t: Topology, s: Sys, k0: Key, info: Info, age: int, r: nat, k: Key)
    requires ValidTopology(t) && Shape(t, s) && k0.rt in t.routers && r in t.routers
    ensures Grown(t, s, SpreadOwn(t, s, k0, info, age), r, k)
  {
  }

  lemma UpSafe(t: Topology, s: Sys, e: Eth, now: int, info: Info, snapshot: seq<Lsa>, r: nat, k: Key)
    requires ValidTopology(t) && Shape(t, s) && e in t.peer && r in t.routers
    ensures Grown(t, s, BringUp(t, s, e, now, info, snapshot), r, k)
  {
    hide Spread;
  }

  lemma DownSafe(t: Topology, s: Sys, e: Eth, now: int, info: Info, r: nat, k: Key)
    requires ValidTopology(t) && Shape(t, s) && e in t.peer && r in t.routers
    ensures Grown(t, s, TakeDown(t, s, e, now, info), r, k)
  {
    hide Spread;
  }

  lemma StepSafe(t: Topology, s: Sys, step: Step, r: nat, k: Key)
    requires ValidTopology(t) && Shape(t, s) && Enabled(t, s, step) && r in t.routers
    ensures SafeStep(t, s, Apply(t, s, step), step, r, k)
  {
    hide Spread, Arrive, IsSnapshot, BringUp, TakeDown, SpreadOwn;
    match step
    case Deliver(_, _) => ArriveSafe(t, s, step, r, k);
    case Originate(k0, info, age) => OwnSafe(t, s, k0, info, age, r, k);
    case LinkUp(e, now, info, snapshot) => UpSafe(t, s, e, now, info, snapshot, r, k);
    case LinkDown(e, now, info) => DownSafe(t, s, e, now, info, r, k);
    case _ =>
  }

  ghost predicate ReplacedAt(t: Topology, states: seq<Sys>, steps: seq<Step>, n: int, r: nat, k: Key)
    requires ValidTopology(t)
  {
    && 0 <= n < |steps| && n + 1 < |states| && Shape(t, states[n]) && Shape(t, states[n + 1])
    && Replaced(t, states[n], states[n + 1], steps[n], r, k)
  }

  /**
    Sequence safety. Along every run a stored number is smaller later than earlier
    only if in between, at one step, a delivered packet carried the key under a lower
    number and replaced the entry, learnt from another router, past its freshness
    limit; in particular a router's own numbers never go down.
   */
  lemma {:induction false} SequenceSafety(t: Topology, states: seq<Sys>, steps: seq<Step>, i: nat, j: nat, r: nat,
                                          k: Key)
    requires ValidTopology(t) && Run(t, states, steps) && i <= j < |states| && r in t.routers
    requires Shape(t, states[i]) && k in states[i].db[r]
    ensures Shape(t, states[j]) && k in states[j].db[r]
    ensures states[j].db[r][k].num < states[i].db[r][k].num ==>
      k.rt != r && exists n :: i <= n < j && ReplacedAt(t, states, steps, n, r, k)
    decreases j - i
  {
    hide Enabled, Apply, ValidTopology;
    if i < j {
      assert Next(t, states[i], states[i + 1], steps[i]);
      StepSafe(t, states[i], steps[i], r, k);
      if states[i + 1].db[r][k].num < states[i].db[r][k].num {
        assert ReplacedAt(t, states, steps, i, r, k);
      }
      SequenceSafety(t, states, steps, i + 1, j, r, k);
    }
  }

  /** No received packet, at any point of any run, changes what a router says of its own links. */
  lemma OwnEntriesUntouched(t: Topology, states: seq<Sys>, steps: seq<Step>, i: nat, r: nat, k: Key)
    requires ValidTopology(t) && Run(t, states, steps) && i < |steps| && steps[i].Deliver?
    requires r in t.routers && k.rt == r
    ensures Shape(t, states[i]) && Shape(t, states[i + 1])
    ensures k in states[i].db[r] <==> k in states[i + 1].db[r]
    ensures k in states[i].db[r] ==> states[i + 1].db[r][k] == states[i].db[r][k]
  {
    hide Enabled, Apply;
    assert Next(t, states[i], states[i + 1], steps[i]);
    StepSafe(t, states[i], steps[i], r, k);
  }
}

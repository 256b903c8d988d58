/** accept_lsa_into_lsdb over the doubly indexed database: the search, the insertion and the overwriting that
    lsd/lsd_utils.c asks of lsdb/ amount to the acceptance rule on a plain map. */
module Acceptance {
  import opened LinkStates
  import opened AreaNetwork
  import opened LsdbTables
  import opened Zones
  import Lsdb

  method AcceptLsa(db: Lsdb.Database, self: nat, l: Lsa, now: int) returns (reaction: Reaction)
    requires db.Valid() && l.key.rt != 0
    modifies db
    ensures db.Valid()
    ensures Outcome(Abs(db.T()), reaction) == Accept(old(Abs(db.T())), self, l, now)
    ensures var db0 := old(Abs(db.T()));
            if l.key.rt != self && IsNews(db0, l, now) then
              reaction == Forward(l) && Abs(db.T()) == db0[l.key := Entry(l.info, l.num, now)]
            else if Disputes(db0, self, l, now) then
              reaction == Back(Lsa(l.key, db0[l.key].info, db0[l.key].num)) && Abs(db.T()) == db0
            else reaction == Silent && Abs(db.T()) == db0
  {
    hide Good, Abs;
    reaction := Silent;
    if l.key.rt == self {
      var known, own := db.LinkStateFind(l.key);
      if known && own.num != l.num {
        reaction := Back(ToLsa(l.key, own));
      }
      return;
    }
    var known, e := db.LinkStateFind(l.key);
    if !known {
      db.LinkStateAdd(l.key, ToEntry(l, now));
      reaction := Forward(l);
    } else if OutOfDate(e, now) {
      db.LinkStateUpdate(l.key, ToEntry(l, now));
      reaction := Forward(l);
    } else if e.num < l.num {
      db.LinkStateUpdate(l.key, ToEntry(l, now));
      reaction := Forward(l);
    } else if e.num > l.num {
      reaction := Back(ToLsa(l.key, e));
    }
  }

  /** The advertisements that an exchange makes of a listing. */
  function Lsas(out: seq<Lsdb.Link>): (ls: seq<Lsa>)
    ensures |ls| == |out| && forall i :: 0 <= i < |out| ==> ls[i] == ToLsa(out[i].key, out[i].entry)
  {
    seq(|out|, i requires 0 <= i < |out| => ToLsa(out[i].key, out[i].entry))
  }

  function KeysOf(out: seq<Lsdb.Link>): set<Key> {
    set l | l in out :: l.key
  }

  lemma {:induction false} KeysCount(out: seq<Lsdb.Link>)
    requires Lsdb.KeysOnce(out)
    ensures |KeysOf(out)| == |out|
    decreases |out|
  {
    if out != [] {
      var last := out[|out| - 1];
      var rest := out[..|out| - 1];
      KeysCount(rest);
      assert KeysOf(out) == KeysOf(rest) + {last.key};
    }
  }

  /** What flood_spread_backbone_link_state advertises: a known entry keeps its address and metric. */
  function OwnInfo(db: Db, k: Key, info: Info): Info {
    if k in db then db[k].info.(state := info.state) else info
  }

  /** flood_spread_backbone_link_state up to the flooding: the router's own entry advances, or starts at 1. */
  method SpreadOwn(db: Lsdb.Database, k: Key, info: Info, age: int) returns (l: Lsa)
    requires db.Valid() && k.rt != 0
    modifies db
    ensures db.Valid()
    ensures var db0 := old(Abs(db.T()));
            var entry := OwnEntry(db0, k, OwnInfo(db0, k, info), age);
            Abs(db.T()) == db0[k := entry] && l == ToLsa(k, entry)
    ensures k in Abs(db.T()) && l.key == k && l.info == Abs(db.T())[k].info && l.num == Abs(db.T())[k].num
    ensures l.num == NextNumber(old(Abs(db.T())), k) && l.info.state == info.state
  {
    hide Good, Abs;
    var known, e := db.LinkStateFind(k);
    if known {
      e := e.(info := e.info.(state := info.state), num := e.num + 1);
      db.LinkStateUpdate(k, e);
    } else {
      e := Entry(info, 1, age);
      db.LinkStateAdd(k, e);
    }
    l := ToLsa(k, e);
  }

  /** The first write of hello_changed_handler, for a link that went up or down. */
  method WriteHello(db: Lsdb.Database, k: Key, addr: nat, metric: nat, up: bool, now: int) returns (info: Info)
    requires db.Valid() && k.rt != 0
    modifies db
    ensures db.Valid() && info == HelloInfo(old(Abs(db.T())), k, addr, metric, up)
    ensures Abs(db.T()) == old(Abs(db.T()))[k := HelloEntry(old(Abs(db.T())), k, info, now)]
    ensures k in Abs(db.T()) && Abs(db.T())[k].num == if k in old(Abs(db.T())) then old(Abs(db.T()))[k].num else 0
    ensures info.addr == addr && info.metric == metric && (info.state / 2 % 2 == 1 <==> up)
  {
    hide Good, Abs;
    var known, e := db.LinkStateFind(k);
    if known {
      var before := e.info.state;
      var was := before / 2 % 2 == 1;
      info := Info(addr, metric, if up == was then before else if up then before + 2 else before - 2);
      db.LinkStateUpdate(k, Entry(info, e.num, now));
    } else {
      info := Info(addr, metric, if up then 2 else 0);
      db.LinkStateAdd(k, Entry(info, 0, now));
    }
  }

  /** What a link that came up does to the database: the hello's write, the listing for the exchange, the router's own
      advertisement. The snapshot is one of the database between the two writes. */
  method BringUp(db: Lsdb.Database, k: Key, addr: nat, metric: nat, now: int)
    returns (info: Info, snapshot: seq<Lsa>, l: Lsa)
    requires db.Valid() && k.rt != 0
    modifies db
    ensures db.Valid() && info == HelloInfo(old(Abs(db.T())), k, addr, metric, true)
    ensures var db0 := old(Abs(db.T()));
            var db1 := db0[k := HelloEntry(db0, k, info, now)];
            && IsSnapshot(db1, snapshot) && l == ToLsa(k, OwnEntry(db1, k, info, now))
            && Abs(db.T()) == db1[k := OwnEntry(db1, k, info, now)]
    ensures l == Lsa(k, info, NextNumber(old(Abs(db.T())), k))
  {
    hide Good, Abs, HelloState, IsSnapshot;
    info := WriteHello(db, k, addr, metric, true, now);
    var out := db.GetLinksState(Lsdb.All);
    ListingIsSnapshot(out, Abs(db.T()));
    snapshot := Lsas(out);
    l := SpreadOwn(db, k, info, now);
  }

  /** What a link that went down does to it. */
  method TakeDown(db: Lsdb.Database, k: Key, addr: nat, metric: nat, now: int) returns (info: Info, l: Lsa)
    requires db.Valid() && k.rt != 0
    modifies db
    ensures db.Valid() && info == HelloInfo(old(Abs(db.T())), k, addr, metric, false)
    ensures var db0 := old(Abs(db.T()));
            var db1 := db0[k := HelloEntry(db0, k, info, now)];
            l == ToLsa(k, OwnEntry(db1, k, info, now)) && Abs(db.T()) == db1[k := OwnEntry(db1, k, info, now)]
    ensures l == Lsa(k, info, NextNumber(old(Abs(db.T())), k))
  {
    hide Good, Abs, HelloState;
    info := WriteHello(db, k, addr, metric, false, now);
    l := SpreadOwn(db, k, info, now);
  }

  /** These are the databases of the handlers that work on a plain map. */
  lemma SameAsHandlers(r: Local, i: nat, k: Key, info: Info, now: int, snapshot: seq<Lsa>)
    requires i < |r.ports|
    ensures var db1 := r.db[k := HelloEntry(r.db, k, info, now)];
            && UpLocal(r, i, k, info, now, snapshot).db == db1[k := OwnEntry(db1, k, info, now)]
            && DownLocal(r, i, k, info, now).db == db1[k := OwnEntry(db1, k, info, now)]
  {
  }

  /** What cr_lsdb_get_links_state lists is a snapshot of the database: the start of an exchange. */
  lemma ListingIsSnapshot(out: seq<Lsdb.Link>, db: Db)
    requires Lsdb.Complete(out, db, Lsdb.All, Lsdb.Everywhere)
    ensures IsSnapshot(db, Lsas(out))
  {
    KeysCount(out);
    forall k | k in db
      ensures k in KeysOf(out) && ToLsa(k, db[k]) in Lsas(out)
    {
      var l := Lsdb.Link(k, db[k]);
      assert l in out;
      var i :| 0 <= i < |out| && out[i] == l;
      assert Lsas(out)[i] == ToLsa(k, db[k]);
    }
    assert KeysOf(out) == db.Keys;
  }
}

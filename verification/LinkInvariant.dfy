/**
  One direction of one link of an area, and what every step keeps of it while no
  link goes down and no entry ages out.
 */
module LinkInvariant {
  import opened LinkStates
  import opened AreaNetwork
  import F = FloodLink
  import X = ExchangeLink

  /** Interface e with its own state and database, the peer interface g with its database and receive state. */
  datatype Link = Link(e: Eth, g: Eth, own: Db, far: Db, f: F.Flood, x: X.Exchange, farRcv: X.RcvPhase, net: set<Msg>)

  /** Whatever a router has put into a queue, a buffer or the network it holds itself. */
  predicate SentIsHeld(v: Link) {
    && AllHeld(v.own, v.f.queue)
    && AllHeld(v.own, v.f.buf)
    && AllHeld(v.own, v.x.rest)
    && AllHeld(v.own, v.x.buf)
    && (forall m :: m in v.net && m.src == v.e && (m.FloodData? || m.ExData?) ==> AllHeld(v.own, m.lsas))
  }

  /** Earlier flood packets, and the current one once acknowledged, have been taken in by the peer. */
  predicate FloodAcks(v: Link) {
    && F.Valid(v.f)
    && (forall m :: m in v.net && m.FloodData? && m.src == v.e ==>
          if m.no == v.f.pkgNo then m.lsas == v.f.buf else m.no < v.f.pkgNo && AllHeld(v.far, m.lsas))
    && (forall m :: m in v.net && m.FloodAck? && m.src == v.g ==>
          m.no <= v.f.pkgNo && (m.no == v.f.pkgNo ==> AllHeld(v.far, v.f.buf)))
    && (v.f.phase != F.AckWaiting ==> AllHeld(v.far, v.f.buf))
  }

  /** The same for exchange packets, of which only the last says that no more follow. */
  predicate ExchangeAcks(v: Link) {
    && X.Valid(v.x)
    && (v.x.send == X.SendTerminated <==> v.f.phase == F.Terminated)
    && (v.x.send == X.SendTerminated ==> v.x.rest == [])
    && (forall m :: m in v.net && m.ExData? && m.src == v.e ==>
          && v.x.send != X.SendTerminated
          && if m.no == v.x.pkgNo then m == ExPacket(v.e, v.x)
             else m.no < v.x.pkgNo && m.more && AllHeld(v.far, m.lsas))
    && (forall m :: m in v.net && m.ExAck? && m.src == v.g ==>
          v.x.send != X.SendTerminated && m.no <= v.x.pkgNo && (m.no == v.x.pkgNo ==> AllHeld(v.far, v.x.buf)))
  }

  /** What the end of sending and the end of reception prove. */
  predicate ExchangeEnds(v: Link) {
    v.x.send == X.SendEnd || v.farRcv == X.RcvEnd ==>
      v.x.send != X.SendTerminated && v.x.rest == [] && AllHeld(v.far, v.x.buf)
  }

  /** What interface e still has to bring to its peer. */
  predicate Pending(v: Link, l: Lsa) {
    || l in v.f.queue
    || (v.f.phase == F.AckWaiting && l in v.f.buf)
    || l in v.x.rest
    || (v.x.send == X.SendWaiting && l in v.x.buf)
  }

  ghost predicate Carries(v: Link, k: Key, num: nat) {
    exists l :: Pending(v, l) && l.key == k && num <= l.num
  }

  /** Once e is up, its peer holds what e's router holds, or e is still carrying it. */
  ghost predicate Covers(v: Link) {
    v.f.phase != F.Terminated ==>
      forall k :: k in v.own ==> Holds(v.far, ToLsa(k, v.own[k])) || Carries(v, k, v.own[k].num)
  }

  ghost predicate Good(v: Link) {
    SentIsHeld(v) && FloodAcks(v) && ExchangeAcks(v) && ExchangeEnds(v) && Covers(v)
  }

  /** The databases at both ends have lost nothing and the ends are the same. */
  predicate Grown(v: Link, w: Link) {
    w.e == v.e && w.g == v.g && Monotone(v.own, w.own) && Monotone(v.far, w.far)
  }

  lemma HeldStays(db: Db, db': Db, ls: seq<Lsa>)
    requires Monotone(db, db') && AllHeld(db, ls)
    ensures AllHeld(db', ls)
  {
  }

  /** Coverage survives if pending advertisements are dropped only once held, and advanced keys are carried. */
  lemma CoversAfter(v: Link, w: Link)
    requires Grown(v, w) && Covers(v) && v.f.phase != F.Terminated
    requires forall l :: Pending(v, l) ==> Pending(w, l) || Holds(w.far, l)
    requires forall k :: k in w.own ==>
      (k in v.own && w.own[k].num == v.own[k].num) || Holds(w.far, ToLsa(k, w.own[k])) || Carries(w, k, w.own[k].num)
    ensures Covers(w)
  {
  }

  /** Acknowledged packets stay taken in when databases grow. */
  lemma AcksStay(v: Link, w: Link)
    requires FloodAcks(v) && ExchangeAcks(v) && ExchangeEnds(v) && Monotone(v.far, w.far)
    requires w == v.(own := w.own, far := w.far, f := w.f)
    requires F.Valid(w.f) && w.f.pkgNo == v.f.pkgNo && w.f.buf == v.f.buf
    requires v.f.phase == F.AckWaiting <==> w.f.phase == F.AckWaiting
    requires v.f.phase == F.Terminated <==> w.f.phase == F.Terminated
    ensures FloodAcks(w) && ExchangeAcks(w) && ExchangeEnds(w)
  {
  }

  lemma SentStays(v: Link, w: Link)
    requires SentIsHeld(v) && Monotone(v.own, w.own)
    requires w == v.(own := w.own, far := w.far, f := w.f)
    requires w.f.buf == v.f.buf && AllHeld(w.own, w.f.queue)
    ensures SentIsHeld(w)
  {
  }

  /** Databases grow and at most one held advertisement joins the queue. */
  lemma GoodAfterEnqueue(v: Link, w: Link, l: Lsa)
    requires Good(v) && Grown(v, w)
    requires w == v.(own := w.own, far := w.far, f := w.f)
    requires w.f == v.f || (w.f == F.Enqueue(v.f, l) && Holds(w.own, l))
    requires forall k :: k in w.own ==>
      || (k in v.own && w.own[k].num == v.own[k].num)
      || Holds(w.far, ToLsa(k, w.own[k]))
      || (w.f == F.Enqueue(v.f, l) && k == l.key && w.own[k].num <= l.num)
    ensures Good(w)
  {
    HeldStays(v.own, w.own, v.f.queue);
    AcksStay(v, w);
    SentStays(v, w);
    if v.f.phase != F.Terminated {
      forall k | k in w.own && w.f == F.Enqueue(v.f, l) && k == l.key && w.own[k].num <= l.num
        ensures Carries(w, k, w.own[k].num)
      {
        assert l in w.f.queue;
        assert Pending(w, l);
      }
      assert v.f.queue <= w.f.queue;
      CoversAfter(v, w);
    }
  }

  /** A packet this direction of the link has nothing to do with. */
  predicate Foreign(v: Link, m: Msg) {
    !(m.src == v.e && (m.FloodData? || m.ExData?)) && !(m.src == v.g && (m.FloodAck? || m.ExAck?))
  }

  lemma GoodAfterForeign(v: Link, w: Link, m: Msg)
    requires Good(v) && Foreign(v, m)
    requires w == v.(net := v.net + {m})
    ensures Good(w)
  {
    CoversStays(v, w);
  }

  lemma CoversStays(v: Link, w: Link)
    requires Grown(v, w) && w.own == v.own && Covers(v)
    requires v.f.phase == F.Terminated <==> w.f.phase == F.Terminated
    requires forall l :: Pending(v, l) ==> Pending(w, l) || Holds(w.far, l)
    ensures Covers(w)
  {
  }

  /** The send timer packs the head of the queue under a number that nobody has acknowledged yet. */
  lemma GoodAfterSend(v: Link, w: Link)
    requires Good(v) && v.f.sndArmed
    requires w == v.(f := F.SendLsa(v.f), net := v.net + {FloodData(v.e, v.f.pkgNo + 1, F.SendLsa(v.f).buf)})
    ensures Good(w)
  {
    var n := F.BatchSize(v.f.queue);
    assert v.f.queue == v.f.queue[..n] + v.f.queue[n..];
    CoversStays(v, w);
  }

  lemma GoodAfterFloodAck(v: Link, w: Link, no: nat)
    requires Good(v) && FloodAck(v.g, no) in v.net
    requires w == v.(f := F.AckReceived(v.f, no))
    ensures Good(w)
  {
    if w.f != v.f {
      assert AllHeld(v.far, v.f.buf);
    }
    CoversStays(v, w);
  }

  /** The peer has taken in a whole flood packet and acknowledges it. */
  lemma GoodAfterFloodData(v: Link, w: Link, m: Msg)
    requires Good(v) && m in v.net && m.FloodData? && m.src == v.e && AllHeld(v.far, m.lsas)
    requires w == v.(net := v.net + {FloodAck(v.g, m.no)})
    ensures Good(w)
  {
    CoversStays(v, w);
  }

  /** The peer has taken in an exchange packet and acknowledges it. */
  lemma GoodAfterExData(v: Link, w: Link, m: Msg)
    requires Good(v) && m in v.net && m.ExData? && m.src == v.e
    requires m.lsas != [] && v.farRcv != X.RcvEnd ==> AllHeld(v.far, m.lsas)
    requires
      if v.farRcv != X.RcvEnd && m.lsas != [] then
        && w == v.(net := v.net + {ExAck(v.g, m.no)}, farRcv := w.farRcv)
        && (w.farRcv == X.RcvEnd ==> !m.more)
      else
        && w == v.(farRcv := w.farRcv)
        && (w.farRcv == X.RcvEnd ==> v.farRcv == X.RcvEnd)
    ensures Good(w)
  {
    assert m.no == v.x.pkgNo ==> m == ExPacket(v.e, v.x);
    CoversStays(v, w);
  }

  /** An exchange acknowledgement reaches the sender: the next packet goes out, or sending ends. */
  lemma GoodAfterExAck(v: Link, w: Link, no: nat)
    requires Good(v) && ExAck(v.g, no) in v.net
    requires var x := X.AckReceived(v.x, no);
             w == v.(x := x, net := if x.pkgNo == v.x.pkgNo then v.net else v.net + {ExPacket(v.e, x)})
    ensures Good(w)
  {
    if w.x != v.x {
      assert AllHeld(v.far, v.x.buf);
      if v.x.rest != [] {
        assert v.x.rest == v.x.rest[..1] + v.x.rest[1..];
        assert w.x.rest == v.x.rest[1..] && w.x.buf == v.x.rest[..1];
      }
    }
    CoversStays(v, w);
  }

  /** A link comes up with a snapshot of the database, in which the link's own entry then advances. */
  lemma GoodAfterLinkUp(v: Link, w: Link, snapshot: seq<Lsa>, l: Lsa)
    requires Good(v) && v.f.phase == F.Terminated && Grown(v, w)
    requires var x := X.Start(v.x, snapshot);
             w == v.(own := w.own, far := w.far, x := x, f := F.Enqueue(F.Start(v.f), l),
                     net := v.net + {ExPacket(v.e, x)})
    requires AllHeld(w.own, snapshot) && Holds(w.own, l)
    requires forall k :: k in w.own ==>
      (k == l.key && w.own[k].num <= l.num) || exists p :: p in snapshot && p.key == k && w.own[k].num <= p.num
    ensures Good(w)
  {
    var n := |w.x.buf|;
    assert snapshot == w.x.buf + w.x.rest;
    forall k | k in w.own
      ensures Carries(w, k, w.own[k].num)
    {
      if k == l.key && w.own[k].num <= l.num {
        assert Pending(w, l);
      } else {
        var p :| p in snapshot && p.key == k && w.own[k].num <= p.num;
        assert Pending(w, p);
      }
    }
  }

  /** With nothing queued or unacknowledged and the exchange ended, all is across. */
  lemma QuietCovers(v: Link, k: Key)
    requires Good(v) && v.f.phase == F.Ready && (v.x.send == X.SendEnd || v.farRcv == X.RcvEnd)
    requires k in v.own
    ensures Holds(v.far, ToLsa(k, v.own[k]))
  {
  }
}

/**
  The exchange makes progress, one link state a packet, and ends: exactly when it has
  something to send and its receiver has not ended before.
 */
module ExchangeProgress {
  import opened LinkStates
  import opened Sequences
  import opened ExchangeSession
  import X = ExchangeLink

  /** Packets 0 to n - 1 arrive and are acknowledged, one after the other. */
  function RoundsOf(n: nat): seq<Event> {
    if n == 0 then [] else RoundsOf(n - 1) + [Data(n - 1), Ack(n - 1)]
  }

  /** After n rounds of a session that is not over: link state n of the snapshot is on its way. */
  ghost predicate Stage(s: Session, snapshot: seq<Lsa>, n: nat) {
    && n < |snapshot|
    && s.x.send == X.SendWaiting && s.x.pkgNo == n && s.x.buf == [snapshot[n]] && s.x.rest == snapshot[n + 1..]
    && s.x.ackArmed && s.rcv != X.RcvEnd
    && SentSingly(s, snapshot, n + 1)
    && (forall p :: 0 <= p < n ==> p in s.log)
  }

  /** The first n packets carry the first n link states, one each, and all but the last of all say that more follow. */
  ghost predicate SentSingly(s: Session, snapshot: seq<Lsa>, n: nat) {
    && n <= |snapshot| && |s.sent| == n
    && (forall p :: 0 <= p < n ==> s.sent[p] == Packet([snapshot[p]], p < |snapshot| - 1))
  }

  lemma Starts(x: X.Exchange, rcv0: X.RcvPhase, snapshot: seq<Lsa>)
    requires x.pkgNo == 0 && snapshot != [] && rcv0 != X.RcvEnd
    ensures Stage(Begin(x, rcv0, snapshot), snapshot, 0)
  {
  }

  /** A round: the next link state follows, or it was the last and both ends are done. */
  lemma RoundIs(s: Session, snapshot: seq<Lsa>, n: nat)
    requires Stage(s, snapshot, n)
    ensures var s' := Handle(Handle(s, Data(n)), Ack(n));
            if n + 1 < |snapshot| then Stage(s', snapshot, n + 1)
            else
              && s'.x.send == X.SendEnd && !s'.x.ackArmed && s'.rcv == X.RcvEnd && SentSingly(s', snapshot, n + 1)
              && (forall p :: 0 <= p <= n ==> p in s'.log)
  {
    var s1 := Handle(s, Data(n));
    assert s1 == s.(rcv := s1.rcv, log := s.log + [n], acks := s.acks + {n});
    if n + 1 < |snapshot| {
      assert snapshot[n + 1..][1..] == snapshot[n + 2..];
    }
  }

  lemma {:induction false} AfterRounds(x: X.Exchange, rcv0: X.RcvPhase, snapshot: seq<Lsa>, n: nat)
    requires x.pkgNo == 0 && rcv0 != X.RcvEnd && n < |snapshot|
    ensures Stage(Exec(Begin(x, rcv0, snapshot), RoundsOf(n)), snapshot, n)
  {
    hide Stage, Begin, Handle;
    if n == 0 {
      Starts(x, rcv0, snapshot);
    } else {
      AfterRounds(x, rcv0, snapshot, n - 1);
      ExecRound(Begin(x, rcv0, snapshot), n);
      RoundIs(Exec(Begin(x, rcv0, snapshot), RoundsOf(n - 1)), snapshot, n - 1);
    }
  }

  lemma ExecRound(s: Session, n: nat)
    requires n > 0
    ensures Exec(s, RoundsOf(n)) == Handle(Handle(Exec(s, RoundsOf(n - 1)), Data(n - 1)), Ack(n - 1))
  {
    hide Handle;
    var evs, r := RoundsOf(n), RoundsOf(n - 1);
    assert evs[..|evs| - 1] == r + [Data(n - 1)];
    assert (r + [Data(n - 1)])[..|r|] == r;
  }

  /**
    As many rounds as the snapshot has link states take it across: both ends are done,
    and the peer has processed the packets, which carry the link states one each and
    in the order of the snapshot.
   */
  lemma SnapshotCrosses(x: X.Exchange, rcv0: X.RcvPhase, snapshot: seq<Lsa>)
    requires x.pkgNo == 0 && snapshot != [] && rcv0 != X.RcvEnd
    ensures var s := Exec(Begin(x, rcv0, snapshot), RoundsOf(|snapshot|));
            && s.x.send == X.SendEnd && s.rcv == X.RcvEnd && SentSingly(s, snapshot, |snapshot|)
            && forall p :: 0 <= p < |snapshot| ==> p in s.log
  {
    hide Stage, Begin, SentSingly, Handle, Exec, RoundsOf;
    var n := |snapshot|;
    AfterRounds(x, rcv0, snapshot, n - 1);
    ExecRound(Begin(x, rcv0, snapshot), n);
    RoundIs(Exec(Begin(x, rcv0, snapshot), RoundsOf(n - 1)), snapshot, n - 1);
  }

  /** Nothing to send, or nobody who listens: the first packet is never acknowledged. */
  lemma {:induction false} NeverEnds(x: X.Exchange, rcv0: X.RcvPhase, snapshot: seq<Lsa>, evs: seq<Event>)
    requires snapshot == [] || rcv0 == X.RcvEnd
    ensures var s := Exec(Begin(x, rcv0, snapshot), evs);
            && s.x.send == X.SendWaiting && s.acks == {} && s.sent == Begin(x, rcv0, snapshot).sent
            && (rcv0 == X.RcvEnd ==> s.rcv == X.RcvEnd)
    decreases |evs|
  {
    if evs != [] {
      NeverEnds(x, rcv0, snapshot, evs[..|evs| - 1]);
    }
  }

  /** A session can reach SEND_END exactly if it has something to send to a receiver that has not ended. */
  lemma EndsExactlyIf(x: X.Exchange, rcv0: X.RcvPhase, snapshot: seq<Lsa>)
    requires x.pkgNo == 0
    ensures (exists evs :: Exec(Begin(x, rcv0, snapshot), evs).x.send == X.SendEnd) <==>
              snapshot != [] && rcv0 != X.RcvEnd
  {
    if snapshot != [] && rcv0 != X.RcvEnd {
      SnapshotCrosses(x, rcv0, snapshot);
    }
    if evs :| Exec(Begin(x, rcv0, snapshot), evs).x.send == X.SendEnd {
      if snapshot == [] || rcv0 == X.RcvEnd {
        NeverEnds(x, rcv0, snapshot, evs);
      }
    }
  }
}

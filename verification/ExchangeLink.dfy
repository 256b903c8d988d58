/**
  The database exchange state of one interface (lsd/lsd_exchange.c) as a value,
  and each handler as a function on it.
 */
module ExchangeLink {
  import opened LinkStates

  datatype SendPhase = SendTerminated | SendWaiting | SendEnd
  datatype RcvPhase = RcvTerminated | RcvWaiting | RcvEnd

  /** `rest` is the part of the snapshot not yet packed; `buf` the packet being sent. */
  datatype Exchange = Exchange(send: SendPhase, rcv: RcvPhase, rest: seq<Lsa>, buf: seq<Lsa>,
                               pkgNo: nat, ackArmed: bool)

  const LINK_LSA_CT_PER_PAK := 1

  const INITIAL := Exchange(SendTerminated, RcvWaiting, [], [], 0, false)

  predicate Valid(x: Exchange) {
    x.ackArmed <==> x.send == SendWaiting
  }

  /** exchange_send. An empty packet goes out typed NO_DATA. */
  function SendNext(x: Exchange): Exchange {
    var n := if |x.rest| < LINK_LSA_CT_PER_PAK then |x.rest| else LINK_LSA_CT_PER_PAK;
    x.(send := SendWaiting, rest := x.rest[n..], buf := x.rest[..n], ackArmed := true)
  }

  /** exchange_send_start, given the list that cr_lsdb_get_links_state built. */
  function Start(x: Exchange, snapshot: seq<Lsa>): Exchange {
    SendNext(x.(rest := snapshot))
  }

  /** exchange_terminate: the packet counter is reset. */
  function Stop(x: Exchange): Exchange {
    x.(send := SendTerminated, rcv := RcvTerminated, rest := [], pkgNo := 0, ackArmed := false)
  }

  /** ex_ack_received, guarded as in exchange_pkt_received. */
  function AckReceived(x: Exchange, no: nat): Exchange {
    if x.send == SendWaiting && no == x.pkgNo then
      if x.rest != [] then SendNext(x.(pkgNo := x.pkgNo + 1))
      else x.(send := SendEnd, ackArmed := false)
    else x
  }

  /** Whether a data packet is looked at: a receiver that has finished ignores it, as it does NO_DATA. */
  predicate Listens(x: Exchange, lsas: seq<Lsa>) {
    x.rcv != RcvEnd && lsas != []
  }

  /** The receive state after a data packet; the first one after a termination reopens reception. */
  function DataReceived(x: Exchange, lsas: seq<Lsa>, more: bool): Exchange {
    if x.rcv == RcvEnd then x
    else if lsas != [] && !more then x.(rcv := RcvEnd)
    else x.(rcv := RcvWaiting)
  }
}

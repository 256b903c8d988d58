/**
  The stop-and-wait flooding state of one interface (lsd/lsd_flood.c) as a value,
  and each handler as a function on it.
 */
module FloodLink {
  import opened LinkStates

  datatype Phase = Ready | Busy | AckWaiting | Terminated

  /** `sndArmed` and `ackArmed` say whether snd_ctrl and ack_ctrl hold a pending timer. */
  datatype Flood = Flood(phase: Phase, queue: seq<Lsa>, buf: seq<Lsa>, pkgNo: nat,
                         sndArmed: bool, ackArmed: bool)

  const LSA_CT_PER_PAK := 5

  /** The phase fixes which timer is pending, and Busy means there is something to send. */
  predicate Valid(f: Flood) {
    && (f.sndArmed <==> f.phase == Busy)
    && (f.ackArmed <==> f.phase == AckWaiting)
    && (f.phase == Busy ==> f.queue != [])
    && (f.phase == Ready || f.phase == Terminated ==> f.queue == [])
    && |f.buf| <= LSA_CT_PER_PAK
  }

  const INITIAL := Flood(Terminated, [], [], 0, false, false)

  function Enqueue(f: Flood, l: Lsa): Flood {
    if f.phase == Terminated then f
    else if f.phase == Ready then f.(queue := f.queue + [l], phase := Busy, sndArmed := true)
    else f.(queue := f.queue + [l])
  }

  function BatchSize(queue: seq<Lsa>): (n: nat)
    ensures n <= |queue| && n <= LSA_CT_PER_PAK
  {
    if |queue| < LSA_CT_PER_PAK then |queue| else LSA_CT_PER_PAK
  }

  /** flood_send_lsa: the send timer fired. */
  function SendLsa(f: Flood): Flood {
    var n := BatchSize(f.queue);
    Flood(AckWaiting, f.queue[n..], f.queue[..n], f.pkgNo + 1, false, true)
  }

  /** The acknowledgement branch of flood_pkt_received. */
  function AckReceived(f: Flood, no: nat): Flood {
    if f.phase == AckWaiting && no == f.pkgNo then
      if f.queue == [] then f.(phase := Ready, ackArmed := false)
      else f.(phase := Busy, ackArmed := false, sndArmed := true)
    else f
  }

  /** flood_terminate: the packet counter and the send buffer survive. */
  function Stop(f: Flood): Flood {
    Flood(Terminated, [], f.buf, f.pkgNo, false, false)
  }

  /** flood_start. */
  function Start(f: Flood): Flood {
    Stop(f).(phase := Ready)
  }
}

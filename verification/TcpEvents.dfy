/** Runs of a connection: any interleaving of arrivals, sends, timer ticks and reads. */
module TcpEvents {
  import opened Bytes
  import opened SequenceSpace
  import opened TcpSegment
  import opened TcpModel

  datatype Event =
    | Arrive(seg: Segment)
    | SendSyn(window: U16)
    | SendData(payload: seq<U8>, window: U16)
    | SendFin(window: U16)
    | SendAck(window: U16)
    | Elapse(ms: U32)
    | Take(max: nat)

  /** A send that is refused leaves the connection alone and returns -1. */
  function Sent(c: Conn, r: Option<(Conn, Segment)>): (Conn, int) {
    match r
    case None => (c, -1)
    case Some((d, _)) => (d, 0)
  }

  /** The connection after one call, and what the call returned (bytes copied, for a read). */
  function Step(c: Conn, e: Event): (Conn, int)
    requires SlotsFit(c.slots)
  {
    match e
    case Arrive(seg) => OnSegment(c, seg)
    case SendSyn(w) => Sent(c, BuildSyn(c, w))
    case SendData(p, w) => Sent(c, BuildData(c, p, w))
    case SendFin(w) => Sent(c, BuildFin(c, w))
    case SendAck(_) => (c, 0)
    case Elapse(ms) => var (d, r, _) := Tick(c, ms); (d, r)
    case Take(max) => var (d, bytes) := Read(c, max); (d, |bytes|)
  }

  function Built(r: Option<(Conn, Segment)>): seq<Segment> {
    match r
    case None => []
    case Some((_, seg)) => [seg]
  }

  /** The segment a call hands to the caller to send, if any. */
  function Emitted(c: Conn, e: Event): seq<Segment> {
    match e
    case SendSyn(w) => Built(BuildSyn(c, w))
    case SendData(p, w) => Built(BuildData(c, p, w))
    case SendFin(w) => Built(BuildFin(c, w))
    case SendAck(w) => (match BuildAck(c, w) case None => [] case Some(seg) => [seg])
    case Elapse(ms) => (match Tick(c, ms).2 case None => [] case Some(seg) => [seg])
    case _ => []
  }
}

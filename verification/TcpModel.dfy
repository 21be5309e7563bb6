/**
 The connection engine of src/tcp_connection.c as functions on values: one function per C
 routine, from the connection before the call to the connection after it. The class in
 TcpConnection.dfy updates the same fields in place and is proved against these functions.
 */
module TcpModel {
  import opened Bytes
  import opened SequenceSpace
  import opened TcpSegment

  const SLOT_COUNT: int := 16
  const SLOT_DATA_LEN: int := 2048
  const READY_CAPACITY: int := 32768
  const DEFAULT_RTO: U32 := 1000
  const MAX_RTO: U32 := 16000
  const RETRANSMIT_LIMIT: nat := 5
  const U32_MAX: U32 := 0xFFFF_FFFF

  datatype State =
    | Closed | SynSent | Established | FinWait1 | FinWait2 | CloseWait | LastAck | TimeWait | Reset

  datatype Slot = Slot(used: bool, start: U32, payload: seq<U8>)

  const FREE_SLOT := Slot(false, 0, [])

  /**
   What has happened to the connection. None of it is in the C structure and no operation
   looks at it; the properties are stated in these terms.
   */
  datatype History = History(
    irs: Option<U32>,      // the peer's initial sequence number, once the handshake is done
    base: nat,             // bytes appended before that handshake
    fins: nat,             // FINs consumed since that handshake
    appended: seq<U8>,     // every byte ever put in the ready buffer
    taken: seq<U8>)        // every byte ever handed to the application

  datatype Conn = Conn(
    state: State,
    localPort: U16,
    remotePort: U16,
    sendUna: U32,
    sendNext: U32,
    recvNext: U32,
    remoteWindow: U16,
    rto: U32,
    elapsed: U32,
    retries: nat,
    retryLimit: nat,
    last: Segment,
    hasRetransmit: bool,
    slots: seq<Slot>,
    slotCount: nat,
    ready: seq<U8>,
    pendingFin: bool,
    pendingFinSeq: U32,
    hist: History)

  const NO_SEGMENT: Segment := SegmentFields(0, 0, 0, 0, 0, NO_FLAGS, 0, 0, 0, [], [])

  function Init(localPort: U16, remotePort: U16, initialSequence: U32): Conn {
    Conn(Closed, localPort, remotePort, initialSequence, initialSequence, 0, 0,
         DEFAULT_RTO, 0, 0, RETRANSMIT_LIMIT, NO_SEGMENT, false,
         seq(SLOT_COUNT, _ => FREE_SLOT), 0, [], false, 0,
         History(None, 0, 0, [], []))
  }

  // ---------------------------------------------------------------- reassembly

  function SlotEnd(s: Slot): U32 {
    Wrap(s.start + |s.payload|)
  }

  /** Number of occupied slots. */
  function UsedCount(slots: seq<Slot>): nat {
    if slots == [] then 0
    else UsedCount(slots[..|slots| - 1]) + (if slots[|slots| - 1].used then 1 else 0)
  }

  function ReadyAppend(c: Conn, data: seq<U8>): Option<Conn> {
    if data == [] then Some(c)
    else if |c.ready| + |data| > READY_CAPACITY then None
    else Some(c.(ready := c.ready + data, hist := c.hist.(appended := c.hist.appended + data)))
  }

  /** The first free slot at or after `from`, or the number of slots. */
  function FreeSlot(slots: seq<Slot>, from: nat): (i: nat)
    requires from <= |slots|
    ensures from <= i <= |slots|
    ensures i < |slots| ==> !slots[i].used
    ensures forall k :: from <= k < i ==> slots[k].used
    decreases |slots| - from
  {
    if from == |slots| || !slots[from].used then from else FreeSlot(slots, from + 1)
  }

  predicate Contains(s: Slot, start: U32, end: U32) {
    s.used && SeqGe(start, s.start) && SeqLe(end, SlotEnd(s))
  }

  predicate AlreadyBuffered(slots: seq<Slot>, start: U32, end: U32) {
    exists i :: 0 <= i < |slots| && Contains(slots[i], start, end)
  }

  function BufferFuture(c: Conn, start: U32, payload: seq<U8>): Option<Conn> {
    if payload == [] || |payload| > SLOT_DATA_LEN then None
    else if AlreadyBuffered(c.slots, start, Wrap(start + |payload|)) then Some(c)
    else
      var i := FreeSlot(c.slots, 0);
      if i == |c.slots| then None
      else Some(c.(slots := c.slots[i := Slot(true, start, payload)], slotCount := c.slotCount + 1))
  }

  function RemoveSlot(c: Conn, i: nat): Conn {
    if i >= |c.slots| || !c.slots[i].used then c
    else
      c.(slots := c.slots[i := FREE_SLOT],
         slotCount := if c.slotCount > 0 then c.slotCount - 1 else 0)
  }

  /** `recvNext` lies in the range: it starts at or before `recvNext` and ends after it. */
  predicate Straddles(c: Conn, start: U32, payload: seq<U8>) {
    !SeqLe(Wrap(start + |payload|), c.recvNext) && !SeqGt(start, c.recvNext)
  }

  /** Clip what was received before, append the rest and advance `recvNext`. */
  function Deliver(c: Conn, start: U32, payload: seq<U8>): Option<Conn>
    requires |payload| <= MAX_PAYLOAD_LEN
    requires Straddles(c, start, payload)
  {
    OverlapFits(start, |payload|, c.recvNext);
    var unseen := payload[Wrap(c.recvNext - start)..];
    match ReadyAppend(c, unseen)
    case None => None
    case Some(d) => Some(d.(recvNext := Wrap(d.recvNext + |unseen|)))
  }

  /** Slot payloads come from segments. */
  predicate SlotsFit(slots: seq<Slot>) {
    forall i :: 0 <= i < |slots| ==> |slots[i].payload| <= SLOT_DATA_LEN
  }

  /** The slot is stale, or has become contiguous. */
  predicate Promotable(c: Conn, s: Slot) {
    s.used && (SeqLe(SlotEnd(s), c.recvNext) || !SeqGt(s.start, c.recvNext))
  }

  /** A stale slot is dropped, a contiguous one delivered and dropped; None when the ready buffer is full. */
  function PromoteSlot(c: Conn, i: nat): Option<Conn>
    requires i < |c.slots| && SlotsFit(c.slots) && Promotable(c, c.slots[i])
  {
    var s := c.slots[i];
    if SeqLe(SlotEnd(s), c.recvNext) then Some(RemoveSlot(c, i))
    else
      match Deliver(c, s.start, s.payload)
      case None => None
      case Some(d) => Some(RemoveSlot(d, i))
  }

  datatype Scan = Scan(c: Conn, progress: bool, ok: bool)

  /** One pass over the slots from index `i` on, as the inner loop of promote_reassembly makes it. */
  function ScanSlots(c: Conn, i: nat, progress: bool): (r: Scan)
    requires i <= |c.slots| && SlotsFit(c.slots)
    ensures |r.c.slots| == |c.slots| && SlotsFit(r.c.slots)
    ensures UsedCount(r.c.slots) <= UsedCount(c.slots)
    ensures r.progress && !progress ==> UsedCount(r.c.slots) < UsedCount(c.slots)
    ensures progress ==> r.progress
    decreases |c.slots| - i
  {
    if i == |c.slots| then Scan(c, progress, true)
    else if !Promotable(c, c.slots[i]) then ScanSlots(c, i + 1, progress)
    else
      match PromoteSlot(c, i)
      case None => Scan(c, progress, false)
      case Some(d) =>
        FreeingSlot(c.slots, i);
        ScanSlots(d, i + 1, true)
  }

  lemma {:induction false} FreeingSlot(slots: seq<Slot>, i: nat)
    requires i < |slots| && slots[i].used
    ensures UsedCount(slots[i := FREE_SLOT]) == UsedCount(slots) - 1
  {
    var k := |slots| - 1;
    var after := slots[i := FREE_SLOT];
    if i == k {
      assert after[..k] == slots[..k];
    } else {
      FreeingSlot(slots[..k], i);
      assert after[..k] == slots[..k][i := FREE_SLOT];
    }
  }

  lemma {:induction false} FillingSlot(slots: seq<Slot>, i: nat, s: Slot)
    requires i < |slots| && !slots[i].used && s.used
    ensures UsedCount(slots[i := s]) == UsedCount(slots) + 1
  {
    var k := |slots| - 1;
    var after := slots[i := s];
    if i == k {
      assert after[..k] == slots[..k];
    } else {
      FillingSlot(slots[..k], i, s);
      assert after[..k] == slots[..k][i := s];
    }
  }

  /** Passes until one makes no progress; false when the ready buffer filled up. */
  function PromoteSlots(c: Conn): (Conn, bool)
    requires SlotsFit(c.slots)
    decreases UsedCount(c.slots)
  {
    var pass := ScanSlots(c, 0, false);
    if !pass.ok then (pass.c, false)
    else if pass.progress then PromoteSlots(pass.c)
    else (pass.c, true)
  }

  /** A pass that came to its end decides how promotion goes on. */
  lemma PassEnds(c: Conn, d: Conn, progress: bool)
    requires SlotsFit(c.slots) && ScanSlots(c, 0, false) == Scan(d, progress, true)
    ensures PromoteSlots(c) == if progress then PromoteSlots(d) else (d, true)
    ensures progress ==> UsedCount(d.slots) < UsedCount(c.slots)
  {
  }

  /** promote_reassembly: the slots, then the pending FIN. */
  function Promote(c: Conn): (Conn, bool)
    requires SlotsFit(c.slots)
  {
    var (m, ok) := PromoteSlots(c);
    if ok then (ConsumePendingFin(m), true) else (m, false)
  }

  // ------------------------------------------------------------ segment arrival

  /** The state after the peer's FIN. */
  function AfterFin(s: State): State {
    match s
    case Established => CloseWait
    case FinWait1 => TimeWait
    case FinWait2 => TimeWait
    case _ => s
  }

  /** The FIN at `recvNext` is consumed. */
  function TakeFin(c: Conn): Conn {
    c.(recvNext := Wrap(c.recvNext + 1),
       state := AfterFin(c.state),
       hist := c.hist.(fins := c.hist.fins + 1))
  }

  function ConsumePendingFin(c: Conn): Conn {
    if !c.pendingFin || c.pendingFinSeq != c.recvNext then c
    else TakeFin(c).(pendingFin := false)
  }

  function ProcessPayload(c: Conn, seg: Segment): (Conn, bool)
    requires SlotsFit(c.slots)
  {
    var start := seg.seqNumber;
    if seg.payload == [] then (c, true)
    else if SeqLe(Wrap(start + |seg.payload|), c.recvNext) then (c, true)
    else if SeqGt(start, c.recvNext) then
      match BufferFuture(c, start, seg.payload)
      case None => (c, false)
      case Some(d) => (d, true)
    else
      match Deliver(c, start, seg.payload)
      case None => (c, false)
      case Some(d) => Promote(d)
  }

  function FinSeq(seg: Segment): U32 {
    Wrap(seg.seqNumber + |seg.payload|)
  }

  function ProcessFin(c: Conn, seg: Segment): Conn {
    if !seg.flags.fin then c
    else if FinSeq(seg) == c.recvNext then TakeFin(c)
    else if SeqGt(FinSeq(seg), c.recvNext) && (!c.pendingFin || SeqLt(FinSeq(seg), c.pendingFinSeq)) then
      c.(pendingFin := true, pendingFinSeq := FinSeq(seg))
    else c
  }

  function ClearReassembly(c: Conn): Conn {
    c.(slots := seq(SLOT_COUNT, _ => FREE_SLOT), slotCount := 0, ready := [],
       pendingFin := false, pendingFinSeq := 0)
  }

  /** The acknowledgment is new and within what was sent. */
  predicate AckAccepted(c: Conn, seg: Segment) {
    seg.flags.ack && SeqGt(seg.ackNumber, c.sendUna) && SeqLe(seg.ackNumber, c.sendNext)
  }

  function ProcessAck(c: Conn, seg: Segment): Conn {
    if !AckAccepted(c, seg) then c
    else
      var all := seg.ackNumber == c.sendNext;
      c.(sendUna := seg.ackNumber, elapsed := 0, retries := 0,
         hasRetransmit := c.hasRetransmit && !all,
         rto := if all then DEFAULT_RTO else c.rto)
  }

  function CompleteHandshake(c: Conn, seg: Segment): Conn {
    c.(recvNext := Wrap(seg.seqNumber + 1), state := Established,
       hasRetransmit := false, retries := 0, elapsed := 0, rto := DEFAULT_RTO,
       hist := c.hist.(irs := Some(seg.seqNumber), base := |c.hist.appended|, fins := 0))
  }

  /** States in which payload and FIN are processed. */
  predicate Receiving(s: State) {
    s == Established || s == FinWait1 || s == FinWait2 || s == CloseWait || s == LastAck
  }

  /** The last two transitions of on_segment: our own FIN has been acknowledged. */
  function FinishClose(c: Conn): Conn {
    if c.sendUna != c.sendNext then c
    else if c.state == FinWait1 then c.(state := FinWait2)
    else if c.state == LastAck then c.(state := Closed, hasRetransmit := false)
    else c
  }

  /** A segment of this connection without RST reaches the rest of on_segment. */
  predicate Addressed(c: Conn, seg: Segment) {
    seg.sourcePort == c.remotePort && seg.destinationPort == c.localPort
  }

  /** The rest of on_segment once the payload is in: this FIN, a pending FIN, our own close. */
  function AfterPayload(c: Conn, seg: Segment): Conn {
    FinishClose(ConsumePendingFin(ProcessFin(c, seg)))
  }

  /** What on_segment does in a receiving state once the acknowledgment is processed. */
  function Receive(c: Conn, seg: Segment): (Conn, int)
    requires SlotsFit(c.slots)
  {
    var (d, ok) := ProcessPayload(c, seg);
    if ok then (AfterPayload(d, seg), 0) else (d, -2)
  }

  function OnSegment(c: Conn, seg: Segment): (Conn, int)
    requires SlotsFit(c.slots)
  {
    if !Addressed(c, seg) then (c, -1)
    else if seg.flags.rst then (ClearReassembly(c).(state := Reset, hasRetransmit := false), 0)
    else
      var a := ProcessAck(c, seg).(remoteWindow := seg.window);
      if a.state == SynSent then
        if !(seg.flags.syn && seg.flags.ack) then (a, 0)
        else if seg.ackNumber != a.sendNext then (a, -1)
        else (CompleteHandshake(a, seg), 1)
      else if !Receiving(a.state) then (a, 0)
      else Receive(a, seg)
  }

  // ------------------------------------------------------------------- sending

  function Remember(c: Conn, seg: Segment): Conn {
    c.(last := seg, hasRetransmit := true, elapsed := 0)
  }

  function BuildSyn(c: Conn, window: U16): Option<(Conn, Segment)> {
    if c.state != Closed then None
    else
      match Build(c.localPort, c.remotePort, c.sendNext, 0, SYN, window, [])
      case None => None
      case Some(seg) =>
        Some((Remember(c.(sendUna := c.sendNext, sendNext := Wrap(c.sendNext + 1), state := SynSent,
                          hist := c.hist.(irs := None)), seg), seg))
  }

  function BuildAck(c: Conn, window: U16): Option<Segment> {
    Build(c.localPort, c.remotePort, c.sendNext, c.recvNext, ACK, window, [])
  }

  function BuildData(c: Conn, payload: seq<U8>, window: U16): Option<(Conn, Segment)> {
    if payload == [] || c.state != Established then None
    else
      match Build(c.localPort, c.remotePort, c.sendNext, c.recvNext, PSH_ACK, window, payload)
      case None => None
      case Some(seg) =>
        Some((Remember(c.(sendUna := c.sendNext, sendNext := Wrap(c.sendNext + |payload|)), seg), seg))
  }

  function BuildFin(c: Conn, window: U16): Option<(Conn, Segment)> {
    if c.state != Established && c.state != CloseWait then None
    else
      match Build(c.localPort, c.remotePort, c.sendNext, c.recvNext, FIN_ACK, window, [])
      case None => None
      case Some(seg) =>
        Some((Remember(c.(sendUna := c.sendNext, sendNext := Wrap(c.sendNext + 1),
                          state := if c.state == CloseWait then LastAck else FinWait1), seg), seg))
  }

  // --------------------------------------------------------- timer, application

  function SaturatingAdd(a: U32, b: U32): U32 {
    if b > U32_MAX - a then U32_MAX else a + b
  }

  function DoubledRto(rto: U32): U32 {
    if rto >= MAX_RTO then rto
    else if rto as int * 2 > MAX_RTO then MAX_RTO
    else rto as int * 2
  }

  /** The new connection, the return value and, when it is 1, the segment to send again. */
  function Tick(c: Conn, ms: U32): (Conn, int, Option<Segment>) {
    if !c.hasRetransmit then (c, 0, None)
    else
      var t := c.(elapsed := SaturatingAdd(c.elapsed, ms));
      if t.elapsed < t.rto then (t, 0, None)
      else if t.retries >= t.retryLimit then (t.(state := Reset, hasRetransmit := false), -1, None)
      else (t.(retries := t.retries + 1, elapsed := 0, rto := DoubledRto(t.rto)), 1, Some(t.last))
  }

  /** Up to `max` bytes leave the front of the ready buffer. */
  function Read(c: Conn, max: nat): (Conn, seq<U8>) {
    var n := if |c.ready| > max then max else |c.ready|;
    (c.(ready := c.ready[n..], hist := c.hist.(taken := c.hist.taken + c.ready[..n])), c.ready[..n])
  }
}

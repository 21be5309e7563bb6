/**
 What one segment does, for any peer, in terms of the segment and the fields before and after: the
 value returned, acknowledgments, the handshake, a reset, the peer's FIN and our own close.
 */
module TcpArrival {
  import opened Bytes
  import opened SequenceSpace
  import opened TcpSegment
  import opened TcpModel
  import opened TcpEvents
  import opened TcpInvariants
  import opened TcpRuns
  import opened TcpStates
  import opened TcpDuplicates

  predicate FromPeer(c: Conn, seg: Segment) {
    seg.sourcePort == c.remotePort && seg.destinationPort == c.localPort
  }

  // ---------------------------------------------------------------- foreign, RST, SYN

  lemma ForeignIgnored(c: Conn, seg: Segment)
    requires SlotsFit(c.slots) && !FromPeer(c, seg)
    ensures OnSegment(c, seg) == (c, -1)
  {
  }

  /** A RST is taken in any state, whatever its sequence number, and empties the receive side. */
  lemma RstResets(c: Conn, seg: Segment)
    requires Inv(c) && FromPeer(c, seg) && seg.flags.rst
    ensures var (d, r) := OnSegment(c, seg);
            && r == 0 && d.state == Reset && !d.hasRetransmit && d.ready == [] && d.slotCount == 0 && !d.pendingFin
            && (forall i :: 0 <= i < 16 ==> !d.slots[i].used)
            && d.sendUna == c.sendUna && d.sendNext == c.sendNext && d.recvNext == c.recvNext && d.hist == c.hist
  {
  }

  /** In SYN_SENT: 1 and ESTABLISHED for a SYN+ACK of everything sent, -1 for another SYN+ACK, 0 otherwise. */
  lemma HandshakeExactly(c: Conn, seg: Segment)
    requires Inv(c) && c.state == SynSent && FromPeer(c, seg) && !seg.flags.rst
    ensures var (d, r) := OnSegment(c, seg);
            if seg.flags.syn && seg.flags.ack && seg.ackNumber == c.sendNext then
              && r == 1 && d.state == Established && d.recvNext == (seg.seqNumber + 1) % 0x1_0000_0000
              && d.hist.irs == Some(seg.seqNumber) && Received(d) == 0 && d.hist.fins == 0
              && d.sendUna == d.sendNext && !d.hasRetransmit && d.rto == 1000 && d.retries == 0 && d.elapsed == 0
            else
              && r == (if seg.flags.syn && seg.flags.ack then -1 else 0)
              && d.state == SynSent && d.recvNext == c.recvNext && d.hist == c.hist
  {
    if seg.flags.ack && seg.ackNumber == c.sendNext {
      HandshakeAcksAll(c, seg);
    }
  }

  /** CLOSED, TIME_WAIT and RESET take no payload and no FIN. */
  lemma OthersStay(c: Conn, seg: Segment)
    requires Inv(c) && FromPeer(c, seg) && !seg.flags.rst
    requires c.state == Closed || c.state == TimeWait || c.state == Reset
    ensures var (d, r) := OnSegment(c, seg);
            r == 0 && d.state == c.state && d.ready == c.ready && d.slots == c.slots && d.hist == c.hist
            && d.recvNext == c.recvNext && d.pendingFin == c.pendingFin && d.pendingFinSeq == c.pendingFinSeq
  {
  }

  // -------------------------------------------------------------------- acknowledgments

  /** The segment acknowledges something that is outstanding. */
  predicate AcksNew(c: Conn, seg: Segment) {
    seg.flags.ack && 0 < Wrap(seg.ackNumber - c.sendUna) <= Wrap(c.sendNext - c.sendUna)
  }

  /** The signed comparisons are the unsigned gaps, since little is ever outstanding. */
  lemma AckByGaps(c: Conn, seg: Segment)
    requires Wrap(c.sendNext - c.sendUna) <= MAX_PAYLOAD_LEN
    ensures AckAccepted(c, seg) <==> AcksNew(c, seg)
  {
    AckGaps(c.sendUna, seg.ackNumber, c.sendNext);
  }

  lemma AckGaps(una: U32, ack: U32, next: U32)
    requires Wrap(next - una) <= MAX_PAYLOAD_LEN
    ensures SeqGt(ack, una) && SeqLe(ack, next) <==> 0 < Wrap(ack - una) <= Wrap(next - una)
  {
    var g, size := Wrap(ack - una), Wrap(next - una);
    GapIs(ack, una, g);
    GapIs(next, una, size);
    if g < HALF {
      DistanceOfPositions(una + g, una + size);
    }
  }

  /**
   A new acknowledgment moves `sendUna` to it and restarts the count of retransmissions; of everything
   outstanding, it also restores the timeout and drops the segment held; of a part, it keeps them.
   Anything else leaves the send side alone.
   */
  lemma AckMoves(c: Conn, seg: Segment)
    requires Inv(c) && FromPeer(c, seg) && !seg.flags.rst
    ensures var (d, r) := OnSegment(c, seg);
            && d.sendNext == c.sendNext && d.last == c.last && d.remoteWindow == seg.window
            && d.sendUna == (if AcksNew(c, seg) then seg.ackNumber else c.sendUna)
            && (AcksNew(c, seg) ==>
                  && d.elapsed == 0 && d.retries == 0
                  && d.rto == (if seg.ackNumber == c.sendNext then 1000 else c.rto)
                  && d.hasRetransmit == (c.hasRetransmit && seg.ackNumber != c.sendNext))
            && (!AcksNew(c, seg) && r != 1 ==>
                  d.elapsed == c.elapsed && d.retries == c.retries && d.rto == c.rto && d.hasRetransmit == c.hasRetransmit)
  {
    var a := Acked(c, seg);
    AckByGaps(c, seg);
    AckKeepsReceive(c, seg);
    AckedFields(c, seg);
    if Receiving(c.state) {
      ReceivedSend(a, seg);
    } else {
      NotReceivedSend(c, seg);
    }
  }

  /** What the acknowledgment stage does to the send side. */
  lemma AckedFields(c: Conn, seg: Segment)
    ensures var a := Acked(c, seg);
            && a.sendNext == c.sendNext && a.last == c.last && a.remoteWindow == seg.window
            && (if AckAccepted(c, seg) then
                  && a.sendUna == seg.ackNumber && a.elapsed == 0 && a.retries == 0
                  && a.rto == (if seg.ackNumber == c.sendNext then 1000 else c.rto)
                  && a.hasRetransmit == (c.hasRetransmit && seg.ackNumber != c.sendNext)
                else a == c.(remoteWindow := seg.window))
  {
  }

  /** Payload and FIN leave the send side alone: closing our side clears a flag that is already clear. */
  lemma ReceivedSend(a: Conn, seg: Segment)
    requires Inv(a) && Receiving(a.state)
    ensures var d := Receive(a, seg).0;
            && d.sendNext == a.sendNext && d.sendUna == a.sendUna && d.last == a.last
            && d.remoteWindow == a.remoteWindow && d.elapsed == a.elapsed && d.retries == a.retries && d.rto == a.rto
            && d.hasRetransmit == a.hasRetransmit
  {
    ReceiveKeepsSend(a, seg);
    ReceiveKeepsInv(a, seg);
  }

  lemma NotReceivedSend(c: Conn, seg: Segment)
    requires Inv(c) && FromPeer(c, seg) && !seg.flags.rst && !Receiving(c.state)
    ensures var (d, r) := OnSegment(c, seg);
            var a := Acked(c, seg);
            if r == 1 then
              && d == CompleteHandshake(a, seg)
              && (AckAccepted(c, seg) ==> seg.ackNumber == c.sendNext)
            else d == a
  {
  }

  // ----------------------------------------------------------------------- the peer's FIN

  /** The receive position once the payload is in. */
  function AfterBytes(c: Conn, d: Conn): U32 {
    Wrap(c.recvNext + (|d.hist.appended| - |c.hist.appended|))
  }

  /** A FIN is known to be at `q`: this segment's, or the pending one. */
  predicate FinAt(c: Conn, seg: Segment, q: U32) {
    || (seg.flags.fin && Wrap(seg.seqNumber + |seg.payload|) == q)
    || (c.pendingFin && c.pendingFinSeq == q)
  }

  /** The earlier of the pending FIN and this segment's, when that is ahead of `q`. */
  function Earliest(c: Conn, seg: Segment, q: U32): Option<U32> {
    var f := Wrap(seg.seqNumber + |seg.payload|);
    if seg.flags.fin && Distance(f, q) > 0 && (c.pendingFin ==> Distance(f, c.pendingFinSeq) < 0) then Some(f)
    else if c.pendingFin then Some(c.pendingFinSeq)
    else None
  }

  function Pending(c: Conn): Option<U32> {
    if c.pendingFin then Some(c.pendingFinSeq) else None
  }

  /** FINs were consumed exactly when one was known at the position; otherwise the earliest waits. */
  predicate FinsHandled(c: Conn, seg: Segment, d: Conn) {
    FinsAt(c, seg, AfterBytes(c, d), d)
  }

  predicate FinsAt(c: Conn, seg: Segment, q: U32, d: Conn) {
    && d.recvNext == Wrap(q + (d.hist.fins - c.hist.fins))
    && d.hist.fins - c.hist.fins == FinsAtOnce(c, seg, q)
    && Pending(d) == match FinsAtOnce(c, seg, q)
                     case 0 => Earliest(c, seg, q)
                     case 1 => if c.pendingFin && c.pendingFinSeq == q then None else Pending(c)
                     case _ => None
  }

  /** None without a known FIN at `q`; two when the pending one is right behind this segment's. */
  function FinsAtOnce(c: Conn, seg: Segment, q: U32): nat {
    if !FinAt(c, seg, q) then 0
    else if c.pendingFin && c.pendingFinSeq == Wrap(q + 1) then 2
    else 1
  }

  /** The FIN stage with no pending FIN at the position. */
  lemma FinStage(p: Conn, seg: Segment)
    requires p.pendingFin ==> p.pendingFinSeq != p.recvNext
    ensures FinsAt(p, seg, p.recvNext, AfterPayload(p, seg))
  {
    AfterPayloadShape(p, seg);
    var q := ProcessFin(p, seg);
    FinishCloseShape(ConsumePendingFin(q));
    if !(seg.flags.fin && FinSeq(seg) == p.recvNext) {
      EarlierWaits(p, seg);
    }
  }

  lemma EarlierWaits(p: Conn, seg: Segment)
    requires p.pendingFin ==> p.pendingFinSeq != p.recvNext
    requires !(seg.flags.fin && FinSeq(seg) == p.recvNext)
    ensures var q := ProcessFin(p, seg);
            && ConsumePendingFin(q) == q && q.hist == p.hist && q.recvNext == p.recvNext
            && Pending(q) == Earliest(p, seg, p.recvNext)
  {
  }

  /** The pending FIN was consumed when the payload closed the gap: the segment's own FIN is behind. */
  lemma FinBehind(p: Conn, seg: Segment)
    requires !p.pendingFin && Distance(FinSeq(seg), p.recvNext) < 0
    ensures AfterPayload(p, seg).hist == p.hist && AfterPayload(p, seg).recvNext == p.recvNext
  {
  }

  lemma ReceiveFins(a: Conn, seg: Segment)
    requires Inv(a) && Receiving(a.state) && AtRest(a) && Receive(a, seg).1 == 0
    ensures FinsHandled(a, seg, Receive(a, seg).0)
  {
    PayloadPaths(a, seg);
    if Delivered(a, seg) {
      DeliveredFins(a, seg);
    } else {
      UndeliveredFins(a, seg);
    }
  }

  lemma UndeliveredFins(a: Conn, seg: Segment)
    requires Inv(a) && Receiving(a.state) && AtRest(a) && Receive(a, seg).1 == 0 && !Delivered(a, seg)
    ensures FinsHandled(a, seg, Receive(a, seg).0)
  {
    var p := ProcessPayload(a, seg).0;
    UndeliveredKeeps(a, seg);
    FinStage(p, seg);
    AfterPayloadShape(p, seg);
    FinsLift(a, p, seg, AfterPayload(p, seg));
    NothingMoved(a);
  }

  lemma NothingMoved(a: Conn)
    ensures Wrap(a.recvNext + 0) == a.recvNext
  {
  }

  /** A payload that is not delivered moves nothing. */
  lemma UndeliveredKeeps(a: Conn, seg: Segment)
    requires SlotsInv(a) && !Delivered(a, seg)
    ensures var p := ProcessPayload(a, seg).0; SameFins(a, p) && p.recvNext == a.recvNext && p.hist == a.hist
  {
    PayloadPaths(a, seg);
    if Buffered(a, seg) {
      BufferCases(a, seg.seqNumber, seg.payload);
    }
  }

  predicate SameFins(c: Conn, d: Conn) {
    d.pendingFin == c.pendingFin && d.pendingFinSeq == c.pendingFinSeq
  }

  /** The bytes may have gone in before. */
  lemma FinsLift(a: Conn, m: Conn, seg: Segment, d: Conn)
    requires FinsAt(m, seg, m.recvNext, d) && SameFins(a, m) && m.hist.fins == a.hist.fins
    ensures FinsAt(a, seg, m.recvNext, d)
  {
  }

  lemma DeliveredFins(a: Conn, seg: Segment)
    requires Inv(a) && AtRest(a) && Receive(a, seg).1 == 0 && Delivered(a, seg)
    ensures FinsHandled(a, seg, Receive(a, seg).0)
  {
    DeliveredPosition(a, seg);
    PayloadPaths(a, seg);
    PromotedFins(a, Promoted(a, seg).0, seg);
  }

  lemma DeliveredPosition(a: Conn, seg: Segment)
    requires Inv(a) && Receive(a, seg).1 == 0 && Delivered(a, seg)
    ensures AfterBytes(a, Receive(a, seg).0) == Promoted(a, seg).0.recvNext
  {
    DeliveredAppends(a, seg);
    AdvancedPosition(a, Promoted(a, seg).0);
  }

  lemma DeliveredAppends(a: Conn, seg: Segment)
    requires Inv(a) && Receive(a, seg).1 == 0 && Delivered(a, seg)
    ensures Receive(a, seg).0.hist.appended == Promoted(a, seg).0.hist.appended
    ensures Advanced(a, Promoted(a, seg).0)
  {
    var m := Promoted(a, seg).0;
    PayloadPaths(a, seg);
    ConsumeShape(m);
    AfterPayloadShape(ConsumePendingFin(m), seg);
  }

  lemma AdvancedPosition(a: Conn, m: Conn)
    requires Advanced(a, m)
    ensures m.recvNext == AfterBytes(a, m)
  {
  }

  lemma PromotedFins(a: Conn, m: Conn, seg: Segment)
    requires SlotsInv(a) && Delivered(a, seg) && m == Promoted(a, seg).0 && Advanced(a, m)
    ensures FinsAt(a, seg, m.recvNext, AfterPayload(ConsumePendingFin(m), seg))
  {
    if m.pendingFin && m.pendingFinSeq == m.recvNext {
      var k := PromotedPast(a, seg);
      PendingTaken(m, seg, k);
    } else {
      FinStage(m, seg);
    }
    FinsLift(a, m, seg, AfterPayload(ConsumePendingFin(m), seg));
  }

  lemma PendingTaken(m: Conn, seg: Segment, k: int)
    requires m.pendingFin && m.pendingFinSeq == m.recvNext && Past(FinSeq(seg), m.recvNext, k) && k <= READY_CAPACITY
    ensures FinsAt(m, seg, m.recvNext, AfterPayload(ConsumePendingFin(m), seg))
  {
    var p := ConsumePendingFin(m);
    assert Distance(FinSeq(seg), p.recvNext) < 0 by {
      WrapTwice(FinSeq(seg) + k, 1);
      PastIsBehind(FinSeq(seg), p.recvNext, k + 1);
    }
    FinBehind(p, seg);
  }

  /** In every state between calls that a run without -2 reaches: the FINs of any peer, exactly. */
  lemma FinsExactly(w: World, es: seq<Event>, seg: Segment)
    requires Start(w) && PatientRun(w, es) && !Run(w, es).overflow
    requires var c := Run(w, es).c;
             FromPeer(c, seg) && !seg.flags.rst && Receiving(c.state) && OnSegment(c, seg).1 == 0
    ensures FinsHandled(Run(w, es).c, seg, OnSegment(Run(w, es).c, seg).0)
  {
    var c := Run(w, es).c;
    RunRests(w, es);
    SegmentFins(c, seg);
  }

  lemma SegmentFins(c: Conn, seg: Segment)
    requires Inv(c) && AtRest(c) && FromPeer(c, seg) && !seg.flags.rst && Receiving(c.state) && OnSegment(c, seg).1 == 0
    ensures FinsHandled(c, seg, OnSegment(c, seg).0)
  {
    var a := Acked(c, seg);
    AckKeepsReceive(c, seg);
    ReceiveFins(a, seg);
    SameFinsHandled(c, a, seg, Receive(a, seg).0);
  }

  lemma SameFinsHandled(c: Conn, a: Conn, seg: Segment, d: Conn)
    requires SameReceive(c, a) && SameFins(c, a) && FinsHandled(a, seg, d)
    ensures FinsHandled(c, seg, d)
  {
  }

  // -------------------------------------------------------------------------- our close

  /** The state after a segment that was accepted, from what it brought. */
  predicate Moves(c: Conn, d: Conn) {
    var fin, done := d.hist.fins > c.hist.fins, d.sendUna == d.sendNext;
    match c.state
    case Established => d.state == if fin then CloseWait else Established
    case FinWait1 => d.state == if fin then TimeWait else if done then FinWait2 else FinWait1
    case FinWait2 => d.state == if fin then TimeWait else FinWait2
    case CloseWait => d.state == CloseWait
    case LastAck => d.state == if done then Closed else LastAck
    case _ => true
  }

  lemma FinMoves(p: Conn, seg: Segment)
    ensures var q := ConsumePendingFin(ProcessFin(p, seg));
            q.state == (if q.hist.fins > p.hist.fins then AfterFin(p.state) else p.state)
            && q.sendUna == p.sendUna && q.sendNext == p.sendNext
  {
    FinStates(p, seg);
  }

  lemma AfterPayloadMoves(p: Conn, seg: Segment)
    ensures var d := AfterPayload(p, seg); Moves(p, d)
  {
    FinMoves(p, seg);
  }

  /** The payload stage takes a FIN and the edge that goes with it, or keeps the state. */
  lemma PayloadMoves(c: Conn, seg: Segment)
    requires SlotsInv(c)
    ensures var p := ProcessPayload(c, seg).0;
            && p.state == (if p.hist.fins > c.hist.fins then AfterFin(c.state) else c.state)
            && c.hist.fins <= p.hist.fins && p.sendUna == c.sendUna && p.sendNext == c.sendNext
            && (!ProcessPayload(c, seg).1 ==> p.state == c.state && p.hist.fins == c.hist.fins)
  {
    PayloadPaths(c, seg);
    if Buffered(c, seg) {
      BufferCases(c, seg.seqNumber, seg.payload);
    } else if Delivered(c, seg) {
      ConsumeShape(Promoted(c, seg).0);
    }
  }

  lemma MovesCompose(c: Conn, p: Conn, d: Conn)
    requires Receiving(c.state) && p.state == (if p.hist.fins > c.hist.fins then AfterFin(c.state) else c.state)
    requires c.hist.fins <= p.hist.fins <= d.hist.fins && Moves(p, d)
    requires p.state == TimeWait ==> d.state == TimeWait
    ensures Moves(c, d)
  {
  }

  /**
   Every accepted segment moves the state exactly so: the peer's FIN leads on, and FIN_WAIT_1 and
   LAST_ACK are left as soon as nothing is outstanding. A call that returns -2 keeps the state.
   */
  lemma ReceiveMoves(c: Conn, seg: Segment)
    requires Inv(c) && FromPeer(c, seg) && !seg.flags.rst && Receiving(c.state)
    ensures var (d, r) := OnSegment(c, seg);
            && (r == 0 ==> Moves(c, d))
            && (r != 0 ==> r == -2 && d.state == c.state && d.hist.fins == c.hist.fins)
  {
    var a := Acked(c, seg);
    AckKeepsReceive(c, seg);
    ReceivedMoves(a, seg);
  }

  lemma ReceivedMoves(a: Conn, seg: Segment)
    requires Inv(a) && Receiving(a.state)
    ensures var (d, r) := Receive(a, seg);
            && (r == 0 ==> Moves(a, d))
            && (r != 0 ==> r == -2 && d.state == a.state && d.hist.fins == a.hist.fins)
  {
    var (p, ok) := ProcessPayload(a, seg);
    PayloadMoves(a, seg);
    if ok {
      AfterPayloadShape(p, seg);
      AfterPayloadMoves(p, seg);
      if p.state == TimeWait {
        TimeWaitStays(p, seg);
      }
      MovesCompose(a, p, AfterPayload(p, seg));
    }
  }

  lemma TimeWaitStays(p: Conn, seg: Segment)
    requires p.state == TimeWait
    ensures AfterPayload(p, seg).state == TimeWait
  {
    FinStates(p, seg);
  }

  /** Our FIN is out, and not acknowledged. */
  predicate FinOut(c: Conn) {
    c.state == FinWait1 || c.state == LastAck ==> c.sendUna != c.sendNext
  }

  lemma StepKeepsFinOut(w: World, e: Event)
    requires Inv(w.c) && FinOut(w.c) && !Next(w, e).overflow
    ensures FinOut(Next(w, e).c)
  {
    if e.Arrive? && FromPeer(w.c, e.seg) && !e.seg.flags.rst {
      if Receiving(w.c.state) {
        ReceiveMoves(w.c, e.seg);
      } else if w.c.state == SynSent {
        HandshakeExactly(w.c, e.seg);
      } else {
        OthersStay(w.c, e.seg);
      }
    }
  }

  /** In every run without a -2 our FIN is outstanding in FIN_WAIT_1 and LAST_ACK: closing never waits. */
  lemma {:induction false} FinOutInRuns(w: World, es: seq<Event>)
    requires Inv(w.c) && FinOut(w.c) && !Run(w, es).overflow
    ensures FinOut(Run(w, es).c)
  {
    if es != [] {
      FinOutInRuns(w, es[..|es| - 1]);
      StepKeepsFinOut(Run(w, es[..|es| - 1]), es[|es| - 1]);
    }
  }

  /**
   So the acknowledgment of everything sent closes our side, in every run without a -2: FIN_WAIT_1
   leads to FIN_WAIT_2, or to TIME_WAIT with the peer's FIN, and LAST_ACK to CLOSED.
   */
  lemma FinAckCloses(w: World, es: seq<Event>, seg: Segment)
    requires Start(w) && !Run(w, es).overflow
    requires var c := Run(w, es).c;
             && (c.state == FinWait1 || c.state == LastAck)
             && FromPeer(c, seg) && !seg.flags.rst && OnSegment(c, seg).1 == 0
    ensures var c := Run(w, es).c;
            var d := OnSegment(c, seg).0;
            && (seg.flags.ack && seg.ackNumber == c.sendNext ==>
                  && d.sendUna == d.sendNext && !d.hasRetransmit
                  && d.state == (if c.state == LastAck then Closed
                                 else if d.hist.fins > c.hist.fins then TimeWait else FinWait2))
            && (!(seg.flags.ack && seg.ackNumber == c.sendNext) ==>
                  && d.state == (if c.state == FinWait1 && d.hist.fins > c.hist.fins then TimeWait else c.state))
  {
    FinOutInRuns(w, es);
    ClosesOnAck(Run(w, es).c, seg);
  }

  lemma ClosesOnAck(c: Conn, seg: Segment)
    requires Inv(c) && FinOut(c) && (c.state == FinWait1 || c.state == LastAck)
    requires FromPeer(c, seg) && !seg.flags.rst && OnSegment(c, seg).1 == 0
    ensures var d := OnSegment(c, seg).0;
            && (seg.flags.ack && seg.ackNumber == c.sendNext ==>
                  && d.sendUna == d.sendNext && !d.hasRetransmit
                  && d.state == (if c.state == LastAck then Closed
                                 else if d.hist.fins > c.hist.fins then TimeWait else FinWait2))
            && (!(seg.flags.ack && seg.ackNumber == c.sendNext) ==>
                  && d.state == (if c.state == FinWait1 && d.hist.fins > c.hist.fins then TimeWait else c.state))
  {
    ReceiveMoves(c, seg);
    AckMoves(c, seg);
    if seg.flags.ack && seg.ackNumber == c.sendNext {
      AckOfAll(c, seg);
    }
  }

  lemma AckOfAll(c: Conn, seg: Segment)
    requires c.sendUna != c.sendNext && seg.flags.ack && seg.ackNumber == c.sendNext
    ensures AcksNew(c, seg)
  {
  }
}

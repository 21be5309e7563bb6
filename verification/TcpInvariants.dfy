/**
 What every call keeps, whatever the peer sends: slot bookkeeping, byte accounting, the
 send side and the timer.
 */
module TcpInvariants {
  import opened Bytes
  import opened SequenceSpace
  import opened TcpSegment
  import opened TcpModel
  import opened TcpEvents

  // ------------------------------------------------------------- the invariant

  /** Slots are 16 nonempty payloads or free, and `slotCount` counts them. */
  predicate SlotsInv(c: Conn) {
    && |c.slots| == SLOT_COUNT
    && SlotsFit(c.slots)
    && (forall i :: 0 <= i < |c.slots| && c.slots[i].used ==> c.slots[i].payload != [])
    && c.slotCount == UsedCount(c.slots)
    && |c.ready| <= READY_CAPACITY
  }

  /** Bytes of the peer's stream received in order since the handshake. */
  function Received(c: Conn): int {
    |c.hist.appended| - c.hist.base
  }

  /** The unbounded form of `recvNext`, counted from the first byte after the peer's SYN. */
  function Position(c: Conn): int {
    Received(c) + c.hist.fins
  }

  predicate Synchronized(s: State) {
    Receiving(s) || s == TimeWait
  }

  /** `recvNext` is the position, wrapped: SYN, then the bytes received, then the FINs taken. */
  predicate AtPosition(c: Conn) {
    c.hist.irs.Some? ==> c.recvNext == Wrap(c.hist.irs.value + 1 + Position(c))
  }

  predicate AccountInv(c: Conn) {
    && c.hist.base <= |c.hist.appended|
    && c.hist.taken + c.ready <= c.hist.appended
    && (c.state != Reset ==> c.hist.taken + c.ready == c.hist.appended)
    && AtPosition(c)
    && (Synchronized(c.state) ==> c.hist.irs.Some?)
    && (c.state == SynSent ==> c.hist.irs.None?)
    && (c.state == Established || c.state == FinWait1 || c.state == FinWait2 ==> c.hist.fins == 0)
    && (c.state == CloseWait || c.state == LastAck || c.state == TimeWait ==> c.hist.fins > 0)
    && (c.state == Closed && c.hist.irs.Some? ==> c.hist.fins > 0)
  }

  /** The remembered segment ends at `sendNext` and `sendUna` is one of its sequence numbers. */
  predicate LastCoversUna(c: Conn) {
    && Wrap(c.last.seqNumber + SeqLength(c.last)) == c.sendNext
    && Wrap(c.sendUna - c.last.seqNumber) < SeqLength(c.last)
  }

  /** The last segment sent is our FIN. */
  predicate LastIsFin(c: Conn) {
    c.last.flags.fin && c.last.payload == [] && Wrap(c.last.seqNumber + 1) == c.sendNext
  }

  predicate SendInv(c: Conn) {
    && Wrap(c.sendNext - c.sendUna) <= MAX_PAYLOAD_LEN
    && (c.state != Reset ==> (c.hasRetransmit <==> c.sendUna != c.sendNext))
    && (c.state == Reset ==> !c.hasRetransmit)
    && (c.hasRetransmit ==> LastCoversUna(c))
    && (c.state == FinWait1 || c.state == FinWait2 || c.state == LastAck ==> LastIsFin(c))
    && (c.state == FinWait2 ==> c.sendUna == c.sendNext)
  }

  predicate RtoStep(rto: U32) {
    rto == 1000 || rto == 2000 || rto == 4000 || rto == 8000 || rto == 16000
  }

  predicate TimerInv(c: Conn) {
    && RtoStep(c.rto)
    && c.retries <= c.retryLimit == RETRANSMIT_LIMIT
    && (c.state != Reset ==> c.elapsed < c.rto)
  }

  predicate Inv(c: Conn) {
    SlotsInv(c) && AccountInv(c) && SendInv(c) && TimerInv(c)
  }

  // ------------------------------------------------------------- the receive path

  /**
   `d` is `c` after some slots were dropped or delivered: the same bytes went into the ready
   buffer, into the history and into `recvNext`, and nothing else changed.
   */
  predicate Advanced(c: Conn, d: Conn) {
    && d == c.(recvNext := d.recvNext, slots := d.slots, slotCount := d.slotCount, ready := d.ready,
               hist := c.hist.(appended := d.hist.appended))
    && |d.slots| == |c.slots|
    && (forall i {:trigger d.slots[i]} :: 0 <= i < |c.slots| ==> d.slots[i] == c.slots[i] || d.slots[i] == FREE_SLOT)
    && c.ready <= d.ready
    && d.hist.appended == c.hist.appended + d.ready[|c.ready|..]
    && d.recvNext == Wrap(c.recvNext + |d.ready| - |c.ready|)
    && (|c.ready| <= READY_CAPACITY ==> |d.ready| <= READY_CAPACITY)
  }

  lemma AdvancedRefl(c: Conn)
    ensures Advanced(c, c)
  {
    assert c.hist.appended == c.hist.appended + c.ready[|c.ready|..];
  }

  lemma AdvancedTrans(c: Conn, d: Conn, e: Conn)
    requires Advanced(c, d) && Advanced(d, e)
    ensures Advanced(c, e)
  {
    assert e.ready[|c.ready|..] == d.ready[|c.ready|..] + e.ready[|d.ready|..];
    WrapTwice(c.recvNext + |d.ready| - |c.ready|, |e.ready| - |d.ready|);
    assert forall i :: 0 <= i < |c.slots| ==> d.slots[i] == c.slots[i] || d.slots[i] == FREE_SLOT;
  }

  lemma DeliverAdvances(c: Conn, start: U32, payload: seq<U8>)
    requires |payload| <= MAX_PAYLOAD_LEN && Straddles(c, start, payload)
    requires Deliver(c, start, payload).Some?
    ensures var d := Deliver(c, start, payload).value;
            Advanced(c, d) && d.slots == c.slots && d.recvNext == Wrap(start + |payload|)
    ensures |Deliver(c, start, payload).value.ready| == |c.ready| + |payload| - Wrap(c.recvNext - start)
  {
    OverlapFits(start, |payload|, c.recvNext);
    var d := Deliver(c, start, payload).value;
    assert d.ready[|c.ready|..] == payload[Wrap(c.recvNext - start)..];
  }

  lemma RemovalAdvances(c: Conn, i: nat)
    requires i < |c.slots| && c.slots[i].used && c.slotCount == UsedCount(c.slots)
    ensures Advanced(c, RemoveSlot(c, i))
    ensures var d := RemoveSlot(c, i); d.slotCount == UsedCount(d.slots)
  {
    FreeingSlot(c.slots, i);
  }

  lemma SlotAdvances(c: Conn, i: nat)
    requires i < |c.slots| && SlotsFit(c.slots) && c.slotCount == UsedCount(c.slots)
    requires Promotable(c, c.slots[i]) && PromoteSlot(c, i).Some?
    ensures var d := PromoteSlot(c, i).value; Advanced(c, d) && d.slotCount == UsedCount(d.slots)
  {
    var s := c.slots[i];
    RemovalAdvances(c, i);
    if !SeqLe(SlotEnd(s), c.recvNext) {
      DeliverAdvances(c, s.start, s.payload);
      var d := Deliver(c, s.start, s.payload).value;
      RemovalAdvances(d, i);
      AdvancedTrans(c, d, RemoveSlot(d, i));
    }
  }

  lemma SlotAdvancesFrom(entry: Conn, c: Conn, i: nat)
    requires i < |c.slots| && SlotsFit(c.slots) && c.slotCount == UsedCount(c.slots)
    requires Promotable(c, c.slots[i]) && PromoteSlot(c, i).Some?
    requires Advanced(entry, c)
    ensures var d := PromoteSlot(c, i).value;
            && Advanced(entry, d) && d.slotCount == UsedCount(d.slots)
            && |d.slots| == |c.slots| && SlotsFit(d.slots)
  {
    SlotAdvances(c, i);
    AdvancedTrans(entry, c, PromoteSlot(c, i).value);
  }

  lemma {:induction false} ScanAdvances(entry: Conn, c: Conn, i: nat, progress: bool)
    requires i <= |c.slots| && SlotsFit(c.slots) && c.slotCount == UsedCount(c.slots)
    requires Advanced(entry, c)
    ensures var d := ScanSlots(c, i, progress).c;
            Advanced(entry, d) && d.slotCount == UsedCount(d.slots)
    decreases |c.slots| - i
  {
    if i < |c.slots| && !Promotable(c, c.slots[i]) {
      ScanAdvances(entry, c, i + 1, progress);
    } else if i < |c.slots| && PromoteSlot(c, i).Some? {
      SlotAdvancesFrom(entry, c, i);
      ScanAdvances(entry, PromoteSlot(c, i).value, i + 1, true);
    }
  }

  /** No slot from index `from` on is stale or contiguous: each starts strictly after `recvNext`. */
  predicate AllAhead(c: Conn, from: nat) {
    forall i :: from <= i < |c.slots| ==> !Promotable(c, c.slots[i])
  }

  lemma {:induction false} IdleScan(c: Conn, i: nat)
    requires i <= |c.slots| && SlotsFit(c.slots)
    requires !ScanSlots(c, i, false).progress && ScanSlots(c, i, false).ok
    ensures ScanSlots(c, i, false).c == c && AllAhead(c, i)
    decreases |c.slots| - i
  {
    if i < |c.slots| {
      IdleScan(c, i + 1);
    }
  }

  /**
   promote_reassembly reaches a fixpoint: on success every remaining slot starts strictly
   after `recvNext`, and on failure too the bytes moved are accounted for.
   */
  lemma {:induction false} PromoteReachesFixpoint(c: Conn)
    requires SlotsFit(c.slots) && c.slotCount == UsedCount(c.slots)
    ensures var (m, ok) := PromoteSlots(c);
            Advanced(c, m) && m.slotCount == UsedCount(m.slots) && (ok ==> AllAhead(m, 0))
    decreases UsedCount(c.slots)
  {
    var pass := ScanSlots(c, 0, false);
    AdvancedRefl(c);
    ScanAdvances(c, c, 0, false);
    if pass.ok {
      if pass.progress {
        PromoteReachesFixpoint(pass.c);
        AdvancedTrans(c, pass.c, PromoteSlots(pass.c).0);
      } else {
        IdleScan(c, 0);
      }
    }
  }

  // --------------------------------------------------- each operation keeps Inv

  lemma AdvancedKeepsInv(c: Conn, d: Conn)
    requires Inv(c) && c.state != Reset
    requires Advanced(c, d) && d.slotCount == UsedCount(d.slots)
    ensures Inv(d)
  {
    AdvancedKeepsAccount(c, d);
  }

  lemma AdvancedKeepsAccount(c: Conn, d: Conn)
    requires AccountInv(c) && c.state != Reset && Advanced(c, d)
    ensures AccountInv(d)
  {
    assert d.hist.taken + d.ready == (c.hist.taken + c.ready) + d.ready[|c.ready|..];
    if c.hist.irs.Some? {
      WrapTwice(c.hist.irs.value + 1 + Position(c), |d.ready| - |c.ready|);
    }
  }

  lemma FillKeepsInv(c: Conn, i: nat, s: Slot)
    requires Inv(c) && i < |c.slots| && !c.slots[i].used
    requires s.used && s.payload != [] && |s.payload| <= SLOT_DATA_LEN
    ensures Inv(c.(slots := c.slots[i := s], slotCount := c.slotCount + 1))
  {
    FillingSlot(c.slots, i, s);
  }

  /** A payload that can be buffered is already in a slot, or goes into a free one. */
  lemma BufferCases(c: Conn, start: U32, payload: seq<U8>)
    requires BufferFuture(c, start, payload).Some?
    ensures var d := BufferFuture(c, start, payload).value;
            var i := FreeSlot(c.slots, 0);
            && |payload| <= SLOT_DATA_LEN
            && if AlreadyBuffered(c.slots, start, Wrap(start + |payload|)) then d == c
               else i < |c.slots| && d == c.(slots := c.slots[i := Slot(true, start, payload)], slotCount := c.slotCount + 1)
  {
  }

  lemma BufferKeepsInv(c: Conn, start: U32, payload: seq<U8>)
    requires Inv(c) && payload != [] && BufferFuture(c, start, payload).Some?
    ensures Inv(BufferFuture(c, start, payload).value)
  {
    BufferCases(c, start, payload);
    var i := FreeSlot(c.slots, 0);
    if i < |c.slots| {
      FillKeepsInv(c, i, Slot(true, start, payload));
    }
  }

  lemma TakeFinKeepsInv(c: Conn)
    requires Inv(c)
    ensures Inv(TakeFin(c)) && Inv(TakeFin(c).(pendingFin := false))
  {
    TakeFinKeepsAccount(c);
  }

  lemma TakeFinKeepsAccount(c: Conn)
    requires AccountInv(c)
    ensures AccountInv(TakeFin(c))
  {
    if c.hist.irs.Some? {
      WrapTwice(c.hist.irs.value + 1 + Position(c), 1);
    }
  }

  /** The three ways process_payload can go. */
  predicate Ignored(c: Conn, seg: Segment) {
    || seg.payload == []
    || SeqLe(FinSeq(seg), c.recvNext)
    || (SeqGt(seg.seqNumber, c.recvNext) && BufferFuture(c, seg.seqNumber, seg.payload).None?)
    || (Straddles(c, seg.seqNumber, seg.payload) && Deliver(c, seg.seqNumber, seg.payload).None?)
  }

  predicate Buffered(c: Conn, seg: Segment) {
    && seg.payload != []
    && SeqGt(seg.seqNumber, c.recvNext) && !SeqLe(FinSeq(seg), c.recvNext)
    && BufferFuture(c, seg.seqNumber, seg.payload).Some?
  }

  predicate Delivered(c: Conn, seg: Segment) {
    && seg.payload != []
    && Straddles(c, seg.seqNumber, seg.payload)
    && Deliver(c, seg.seqNumber, seg.payload).Some?
  }

  /** The connection when promotion stops, before the pending FIN is looked at. */
  function Promoted(c: Conn, seg: Segment): (Conn, bool)
    requires SlotsFit(c.slots) && Delivered(c, seg)
  {
    PromoteSlots(Deliver(c, seg.seqNumber, seg.payload).value)
  }

  lemma PayloadPaths(c: Conn, seg: Segment)
    requires SlotsInv(c)
    ensures Ignored(c, seg) || Buffered(c, seg) || Delivered(c, seg)
    ensures Ignored(c, seg) ==> ProcessPayload(c, seg).0 == c
    ensures Buffered(c, seg) ==>
              ProcessPayload(c, seg) == (BufferFuture(c, seg.seqNumber, seg.payload).value, true)
    ensures Delivered(c, seg) ==>
              var (m, ok) := Promoted(c, seg);
              && ProcessPayload(c, seg) == (if ok then ConsumePendingFin(m) else m, ok)
              && Advanced(c, m) && m.slotCount == UsedCount(m.slots)
              && Advanced(Deliver(c, seg.seqNumber, seg.payload).value, m)
              && (ok ==> AllAhead(m, 0))
  {
    if Delivered(c, seg) {
      DeliverAdvances(c, seg.seqNumber, seg.payload);
      var d := Deliver(c, seg.seqNumber, seg.payload).value;
      PromoteReachesFixpoint(d);
      AdvancedTrans(c, d, PromoteSlots(d).0);
    }
  }

  /** The history only gains bytes and FINs. */
  predicate HistoryGrows(h: History, h': History) {
    h' == h.(appended := h'.appended, fins := h'.fins) && h.appended <= h'.appended && h.fins <= h'.fins
  }

  lemma PromotedKeepsInv(c: Conn, m: Conn)
    requires Inv(c) && c.state != Reset && Advanced(c, m) && m.slotCount == UsedCount(m.slots)
    ensures Inv(m) && Inv(ConsumePendingFin(m)) && m.state == c.state
    ensures ConsumePendingFin(m).state != Reset
    ensures HistoryGrows(c.hist, m.hist) && HistoryGrows(c.hist, ConsumePendingFin(m).hist)
  {
    AdvancedKeepsInv(c, m);
    ConsumeKeepsInv(m);
  }

  lemma PayloadKeepsInv(c: Conn, seg: Segment)
    requires Inv(c) && c.state != Reset
    ensures Inv(ProcessPayload(c, seg).0) && ProcessPayload(c, seg).0.state != Reset
    ensures HistoryGrows(c.hist, ProcessPayload(c, seg).0.hist)
  {
    PayloadPaths(c, seg);
    if Buffered(c, seg) {
      BufferCases(c, seg.seqNumber, seg.payload);
      BufferKeepsInv(c, seg.seqNumber, seg.payload);
    } else if Delivered(c, seg) {
      PromotedKeepsInv(c, Promoted(c, seg).0);
    }
  }

  lemma ConsumeKeepsInv(c: Conn)
    requires Inv(c)
    ensures Inv(ConsumePendingFin(c))
  {
    TakeFinKeepsInv(c);
  }

  lemma PendingKeepsInv(c: Conn, seq': U32)
    requires Inv(c)
    ensures Inv(c.(pendingFin := true, pendingFinSeq := seq'))
  {
  }

  lemma ProcessFinKeepsInv(c: Conn, seg: Segment)
    requires Inv(c)
    ensures Inv(ProcessFin(c, seg))
  {
    if seg.flags.fin {
      if FinSeq(seg) == c.recvNext {
        TakeFinKeepsInv(c);
      } else {
        PendingKeepsInv(c, FinSeq(seg));
      }
    }
  }

  lemma FinishCloseKeepsInv(c: Conn)
    requires Inv(c)
    ensures Inv(FinishClose(c))
  {
  }

  lemma AfterPayloadKeepsInv(c: Conn, seg: Segment)
    requires Inv(c)
    ensures Inv(AfterPayload(c, seg))
  {
    var p := ProcessFin(c, seg);
    ProcessFinKeepsInv(c, seg);
    ConsumeKeepsInv(p);
    FinishCloseKeepsInv(ConsumePendingFin(p));
  }

  /** `d` is `c` after some FINs: they move the receive position and leave buffers alone. */
  predicate FinsTaken(c: Conn, d: Conn) {
    && d.slots == c.slots && d.ready == c.ready
    && d.hist == c.hist.(fins := d.hist.fins)
    && c.hist.fins <= d.hist.fins <= c.hist.fins + 2
    && d.recvNext == Wrap(c.recvNext + d.hist.fins - c.hist.fins)
  }

  /** Closing our own side is a matter of the state and the retransmit flag. */
  lemma FinishCloseShape(c: Conn)
    ensures var d := FinishClose(c); d == c.(state := d.state, hasRetransmit := d.hasRetransmit)
  {
  }

  lemma ProcessFinShape(c: Conn, seg: Segment)
    ensures var d := ProcessFin(c, seg); FinsTaken(c, d) && d.hist.fins <= c.hist.fins + 1
    ensures AccountInv(c) ==> AccountInv(ProcessFin(c, seg))
  {
    if AccountInv(c) {
      TakeFinKeepsAccount(c);
    }
  }

  lemma AfterPayloadShape(c: Conn, seg: Segment)
    ensures FinsTaken(c, AfterPayload(c, seg))
  {
    var p := ProcessFin(c, seg);
    ProcessFinShape(c, seg);
    ConsumeShape(p);
    var q := ConsumePendingFin(p);
    FinishCloseShape(q);
    WrapTwice(c.recvNext + p.hist.fins - c.hist.fins, q.hist.fins - p.hist.fins);
  }

  /** FINs move the state along at most one edge and leave the send side alone. */
  lemma FinStates(c: Conn, seg: Segment)
    ensures var q := ConsumePendingFin(ProcessFin(c, seg));
            (q.state == c.state || q.state == AfterFin(c.state)) && q.sendUna == c.sendUna && q.sendNext == c.sendNext
  {
    var p := ProcessFin(c, seg);
    assert (p.state == c.state || p.state == AfterFin(c.state)) && p.sendUna == c.sendUna && p.sendNext == c.sendNext;
  }

  lemma AfterPayloadLives(c: Conn, seg: Segment)
    requires c.state != Reset
    ensures AfterPayload(c, seg).state != Reset
  {
    FinStates(c, seg);
  }

  lemma ConsumeShape(c: Conn)
    ensures var d := ConsumePendingFin(c); FinsTaken(c, d) && d.hist.fins <= c.hist.fins + 1
  {
  }

  lemma ReceiveKeepsInv(c: Conn, seg: Segment)
    requires Inv(c) && c.state != Reset
    ensures Inv(Receive(c, seg).0)
  {
    PayloadKeepsInv(c, seg);
    var (d, ok) := ProcessPayload(c, seg);
    if ok {
      AfterPayloadKeepsInv(d, seg);
    }
  }

  /** `d` differs from `c` in receive fields, the state, and at most a cleared retransmit flag with all acknowledged. */
  predicate SendKept(c: Conn, d: Conn) {
    && d == c.(state := d.state, recvNext := d.recvNext, slots := d.slots, slotCount := d.slotCount,
               ready := d.ready, pendingFin := d.pendingFin, pendingFinSeq := d.pendingFinSeq,
               hist := d.hist, hasRetransmit := d.hasRetransmit)
    && (c.sendUna != c.sendNext ==> d.hasRetransmit == c.hasRetransmit)
  }

  lemma AfterPayloadKeepsSend(c: Conn, seg: Segment)
    ensures SendKept(c, AfterPayload(c, seg))
  {
    assert SendKept(c, ProcessFin(c, seg));
    assert SendKept(c, ConsumePendingFin(ProcessFin(c, seg)));
  }

  /** Payload and FIN processing leave the send side and the timer alone. */
  lemma ReceiveKeepsSend(c: Conn, seg: Segment)
    requires SlotsInv(c)
    ensures SendKept(c, Receive(c, seg).0)
  {
    PayloadPaths(c, seg);
    var p := ProcessPayload(c, seg).0;
    assert SendKept(c, p);
    AfterPayloadKeepsSend(p, seg);
  }

  /** An accepted acknowledgment never passes `sendNext` and never moves back. */
  lemma AckStaysInside(c: Conn, seg: Segment)
    requires Wrap(c.sendNext - c.sendUna) <= MAX_PAYLOAD_LEN
    ensures var d := ProcessAck(c, seg);
            Wrap(d.sendUna - c.sendUna) + Wrap(c.sendNext - d.sendUna) == Wrap(c.sendNext - c.sendUna)
  {
    if AckAccepted(c, seg) {
      AckBetween(c.sendUna, seg.ackNumber, c.sendNext);
    }
  }

  lemma AckBetween(una: U32, ack: U32, next: U32)
    requires Wrap(next - una) <= MAX_PAYLOAD_LEN && SeqGt(ack, una) && SeqLe(ack, next)
    ensures Wrap(ack - una) + Wrap(next - ack) == Wrap(next - una)
  {
    var g, size := Wrap(ack - una), Wrap(next - una);
    GapIs(ack, una, g);
    GapIs(next, una, size);
    DistanceOfPositions(una + g, una + size);
    WrapTwice(una + g, size - g);
    GapIs(next, ack, size - g);
  }

  lemma AckKeepsCoverage(c: Conn, seg: Segment)
    requires SendInv(c) && ProcessAck(c, seg).hasRetransmit
    ensures LastCoversUna(ProcessAck(c, seg))
  {
    AckStaysInside(c, seg);
    CoverageMoves(c.last.seqNumber, SeqLength(c.last), c.sendUna, ProcessAck(c, seg).sendUna, c.sendNext);
  }

  lemma AckKeepsSendInv(c: Conn, seg: Segment)
    requires SendInv(c)
    ensures SendInv(ProcessAck(c, seg).(remoteWindow := seg.window))
  {
    AckStaysInside(c, seg);
    if ProcessAck(c, seg).hasRetransmit {
      AckKeepsCoverage(c, seg);
    }
  }

  lemma AckKeepsInv(c: Conn, seg: Segment)
    requires Inv(c)
    ensures Inv(ProcessAck(c, seg).(remoteWindow := seg.window))
  {
    AckKeepsSendInv(c, seg);
  }

  /** Moving `una` forward, short of `next`, keeps it inside a segment that ends at `next`. */
  lemma CoverageMoves(start: U32, len: nat, una: U32, una': U32, next: U32)
    requires len <= MAX_PAYLOAD_LEN + 2
    requires Wrap(start + len) == next && Wrap(una - start) < len
    requires Wrap(una' - una) + Wrap(next - una') == Wrap(next - una)
    requires una' != next
    ensures Wrap(una' - start) < len
  {
    var a, b := Wrap(una - start), Wrap(una' - una);
    assert Wrap(next - una) == len - a by {
      GapIs(una, start, a);
      WrapTwice(start + a, len - a);
      GapIs(next, una, len - a);
    }
    assert Wrap(next - una') > 0 by {
      GapIs(next, una', 0);
    }
    assert Wrap(una' - start) == a + b by {
      GapIs(una, start, a);
      GapIs(una', una, b);
      WrapTwice(start + a, b);
      GapIs(una', start, a + b);
    }
  }

  lemma InitInv(localPort: U16, remotePort: U16, initialSequence: U32)
    ensures Inv(Init(localPort, remotePort, initialSequence))
  {
    NoneUsed(seq(SLOT_COUNT, _ => FREE_SLOT));
  }

  lemma {:induction false} NoneUsed(slots: seq<Slot>)
    requires forall i :: 0 <= i < |slots| ==> !slots[i].used
    ensures UsedCount(slots) == 0
  {
    if slots != [] {
      NoneUsed(slots[..|slots| - 1]);
    }
  }

  lemma ResetKeepsInv(c: Conn)
    requires Inv(c)
    ensures Inv(ClearReassembly(c).(state := Reset, hasRetransmit := false))
  {
    NoneUsed(seq(SLOT_COUNT, _ => FREE_SLOT));
  }

  lemma SegmentKeepsInv(c: Conn, seg: Segment)
    requires Inv(c)
    ensures Inv(OnSegment(c, seg).0)
  {
    if Addressed(c, seg) {
      if seg.flags.rst {
        ResetKeepsInv(c);
      } else {
        AckKeepsInv(c, seg);
        var a := ProcessAck(c, seg).(remoteWindow := seg.window);
        if Receiving(a.state) {
          ReceiveKeepsInv(a, seg);
        } else if a.state == SynSent && seg.flags.ack && seg.ackNumber == a.sendNext {
          HandshakeAcksAll(c, seg);
          HandshakeKeepsInv(a, seg);
        }
      }
    }
  }

  /** The acknowledgment that completes the handshake leaves nothing outstanding. */
  lemma HandshakeAcksAll(c: Conn, seg: Segment)
    requires Wrap(c.sendNext - c.sendUna) <= MAX_PAYLOAD_LEN
    requires seg.flags.ack && seg.ackNumber == c.sendNext
    ensures ProcessAck(c, seg).sendUna == c.sendNext
  {
  }

  lemma HandshakeKeepsInv(c: Conn, seg: Segment)
    requires Inv(c) && c.state == SynSent && c.sendUna == c.sendNext
    ensures Inv(CompleteHandshake(c, seg))
  {
    var d := CompleteHandshake(c, seg);
    assert Received(d) == 0;
  }

  lemma SynKeepsInv(c: Conn, window: U16)
    requires Inv(c) && BuildSyn(c, window).Some?
    ensures Inv(BuildSyn(c, window).value.0)
  {
    assert SeqLength(BuildSyn(c, window).value.1) == 1;
  }

  lemma DataKeepsInv(c: Conn, payload: seq<U8>, window: U16)
    requires Inv(c) && BuildData(c, payload, window).Some?
    ensures Inv(BuildData(c, payload, window).value.0)
  {
    assert SeqLength(BuildData(c, payload, window).value.1) == |payload|;
  }

  lemma FinKeepsInv(c: Conn, window: U16)
    requires Inv(c) && BuildFin(c, window).Some?
    ensures Inv(BuildFin(c, window).value.0)
  {
    assert SeqLength(BuildFin(c, window).value.1) == 1;
  }

  lemma TickKeepsInv(c: Conn, ms: U32)
    requires Inv(c)
    ensures Inv(Tick(c, ms).0)
  {
    if c.hasRetransmit {
      var t := SaturatingAdd(c.elapsed, ms);
      if t >= c.rto && c.retries >= c.retryLimit {
        TimeoutKeepsInv(c, t);
      } else {
        TimerFieldsKeepInv(c, Tick(c, ms).0);
      }
    }
  }

  lemma TimeoutKeepsInv(c: Conn, t: U32)
    requires Inv(c)
    ensures Inv(c.(elapsed := t, state := Reset, hasRetransmit := false))
  {
  }

  lemma TimerFieldsKeepInv(c: Conn, d: Conn)
    requires Inv(c) && TimerInv(d)
    requires d == c.(elapsed := d.elapsed, retries := d.retries, rto := d.rto)
    ensures Inv(d)
  {
  }

  lemma ReadKeepsInv(c: Conn, max: nat)
    requires Inv(c)
    ensures Inv(Read(c, max).0)
  {
    var d := Read(c, max).0;
    assert d.hist.taken + d.ready == c.hist.taken + c.ready;
  }

  /** Every call, with any arguments and any segment, keeps the invariant. */
  lemma StepKeepsInv(c: Conn, e: Event)
    requires Inv(c)
    ensures Inv(Step(c, e).0)
  {
    match e
    case Arrive(seg) => SegmentKeepsInv(c, seg);
    case SendSyn(w) => if BuildSyn(c, w).Some? { SynKeepsInv(c, w); }
    case SendData(p, w) => if BuildData(c, p, w).Some? { DataKeepsInv(c, p, w); }
    case SendFin(w) => if BuildFin(c, w).Some? { FinKeepsInv(c, w); }
    case SendAck(_) =>
    case Elapse(ms) => TickKeepsInv(c, ms);
    case Take(max) => ReadKeepsInv(c, max);
  }
}

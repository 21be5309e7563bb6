/**
 When a call returns -2, for any peer: exactly when the queue has no place for a payload ahead of the
 receive position, or the ready buffer none for everything that would become contiguous. Neither
 condition mentions how the code searches, stores or promotes.
 */
module TcpRoom {
  import opened Bytes
  import opened SequenceSpace
  import opened TcpSegment
  import opened TcpModel
  import opened TcpEvents
  import opened TcpInvariants
  import opened TcpReassembly
  import opened TcpRuns
  import TcpPastFin

  // -------------------------------------------------------------------- the condition

  /** The range of `len` sequence numbers from `q` on has the `k`-th from the receive position on. */
  predicate Spans(c: Conn, q: U32, len: nat, k: int) {
    Distance(q, c.recvNext) <= k < Distance(q, c.recvNext) + len
  }

  /** Byte `k` from the receive position on is in the payload or in a slot. */
  predicate AtHand(c: Conn, seg: Segment, k: int) {
    || Spans(c, seg.seqNumber, |seg.payload|, k)
    || exists i :: 0 <= i < |c.slots| && c.slots[i].used && Spans(c, c.slots[i].start, |c.slots[i].payload|, k)
  }

  /** A used slot starts no later than the payload and ends no earlier. */
  predicate Held(c: Conn, seg: Segment) {
    exists i :: 0 <= i < |c.slots| && c.slots[i].used
      && Distance(seg.seqNumber, c.slots[i].start) >= 0
      && Distance(Wrap(seg.seqNumber + |seg.payload|), Wrap(c.slots[i].start + |c.slots[i].payload|)) <= 0
  }

  /** The payload ends after the receive position. */
  predicate Unseen(c: Conn, seg: Segment) {
    seg.payload != [] && Distance(Wrap(seg.seqNumber + |seg.payload|), c.recvNext) > 0
  }

  /** And starts after it. */
  predicate Future(c: Conn, seg: Segment) {
    Unseen(c, seg) && Distance(seg.seqNumber, c.recvNext) > 0
  }

  predicate QueueFull(c: Conn)
    requires |c.slots| == 16
  {
    forall i :: 0 <= i < 16 ==> c.slots[i].used
  }

  /** More bytes are contiguous than the ready buffer has room for. */
  predicate TooMuch(c: Conn, seg: Segment) {
    forall k :: 0 <= k <= 32768 - |c.ready| ==> AtHand(c, seg, k)
  }

  predicate NoRoom(c: Conn, seg: Segment)
    requires |c.slots| == 16
  {
    if Future(c, seg) then |seg.payload| > 2048 || (QueueFull(c) && !Held(c, seg))
    else Unseen(c, seg) && TooMuch(c, seg)
  }

  // ------------------------------------------------------------------- where slots are

  /** Slots are near enough for their distances to stay what they are while bytes are delivered. */
  predicate Placed(c: Conn) {
    forall i :: 0 <= i < |c.slots| && c.slots[i].used ==>
      -WINDOW <= Distance(c.slots[i].start, c.recvNext)
      && Distance(c.slots[i].start, c.recvNext) + |c.slots[i].payload| < HALF
  }

  /** A range that starts and ends ahead ends less than half the circle ahead. */
  lemma EndAhead(q: U32, len: nat, next: U32)
    requires len <= MAX_PAYLOAD_LEN && Distance(q, next) > 0 && Distance(Wrap(q + len), next) > 0
    ensures Distance(q, next) + len < HALF
  {
    var t := Distance(q, next);
    if t + len >= HALF {
      DistanceIs(q, next, t);
      WrapTwice(next + t, len);
      WrapPeriod(next + t + len);
      WrapTwice(next, t + len - MODULUS);
      DistanceIs(Wrap(q + len), next, t + len - MODULUS);
    }
  }

  /** Seen from a receive position `k` further on, a range is `k` less ahead. */
  lemma RangeShifts(q: U32, len: nat, next: U32, k: nat)
    requires k <= READY_CAPACITY && len <= MAX_PAYLOAD_LEN
    requires -WINDOW <= Distance(q, next) && Distance(q, next) + len < HALF
    ensures Distance(q, Wrap(next + k)) == Distance(q, next) - k
    ensures Distance(Wrap(q + len), Wrap(next + k)) == Distance(q, next) + len - k
  {
    HeadShifts(q, next, len);
    TailShifts(q, next, k);
    TailShifts(Wrap(q + len), next, k);
  }

  // ---------------------------------------------------------------------- the promotion

  /** How many bytes have been delivered since `c`. */
  function Moved(c: Conn, m: Conn): int {
    |m.ready| - |c.ready|
  }

  /** All bytes delivered since `c` were at hand, and slots that are gone have nothing more to give. */
  predicate Gathered(c: Conn, seg: Segment, m: Conn) {
    && SlotsInv(c) && Placed(c) && Advanced(c, m) && m.slotCount == UsedCount(m.slots) && SlotsFit(m.slots)
    && (forall j :: 0 <= j < Moved(c, m) ==> AtHand(c, seg, j))
    && Distance(seg.seqNumber, c.recvNext) + |seg.payload| <= Moved(c, m)
    && (forall i :: 0 <= i < |c.slots| && c.slots[i].used && !m.slots[i].used ==>
          Distance(c.slots[i].start, c.recvNext) + |c.slots[i].payload| <= Moved(c, m))
  }

  /** Where a slot that is still there lies. */
  lemma SlotPlace(c: Conn, seg: Segment, m: Conn, i: nat)
    requires Gathered(c, seg, m) && i < |m.slots| && m.slots[i].used
    ensures m.slots[i] == c.slots[i]
    ensures var s, p := c.slots[i], Distance(c.slots[i].start, c.recvNext);
            && Distance(s.start, m.recvNext) == p - Moved(c, m)
            && Distance(SlotEnd(s), m.recvNext) == p + |s.payload| - Moved(c, m)
  {
    RangeShifts(c.slots[i].start, |c.slots[i].payload|, c.recvNext, Moved(c, m));
  }

  /** The bytes of slot `i` are at hand. */
  lemma SlotAtHand(c: Conn, seg: Segment, i: nat, j: int)
    requires i < |c.slots| && c.slots[i].used && Spans(c, c.slots[i].start, |c.slots[i].payload|, j)
    ensures AtHand(c, seg, j)
  {
  }

  /** What a contiguous range that starts at `start` leaves to deliver. */
  lemma DeliverMoves(m: Conn, start: U32, payload: seq<U8>)
    requires |payload| <= MAX_PAYLOAD_LEN && Straddles(m, start, payload)
    ensures var left := Distance(start, m.recvNext) + |payload|;
            && Distance(start, m.recvNext) <= 0 < left
            && (Deliver(m, start, payload).None? <==> |m.ready| + left > READY_CAPACITY)
            && (Deliver(m, start, payload).Some? ==> |Deliver(m, start, payload).value.ready| == |m.ready| + left)
  {
    OverlapFits(start, |payload|, m.recvNext);
    OverlapIsDistance(start, m.recvNext);
  }

  lemma SlotGathers(c: Conn, seg: Segment, m: Conn, i: nat)
    requires Gathered(c, seg, m) && i < |m.slots| && Promotable(m, m.slots[i]) && PromoteSlot(m, i).Some?
    ensures Gathered(c, seg, PromoteSlot(m, i).value)
    ensures |PromoteSlot(m, i).value.slots| == |m.slots|
  {
    var d := PromoteSlot(m, i).value;
    SlotAdvancesFrom(c, m, i);
    SlotPlace(c, seg, m, i);
    SlotMoves(m, i);
    forall j | 0 <= j < Moved(c, d)
      ensures AtHand(c, seg, j)
    {
      if j >= Moved(c, m) {
        SlotAtHand(c, seg, i, j);
      }
    }
  }

  /** Dropping a slot moves nothing; delivering one moves to its end. */
  lemma SlotMoves(m: Conn, i: nat)
    requires i < |m.slots| && SlotsFit(m.slots) && Promotable(m, m.slots[i]) && PromoteSlot(m, i).Some?
    ensures var s, d := m.slots[i], PromoteSlot(m, i).value;
            && d.slots == m.slots[i := FREE_SLOT]
            && (if SeqLe(SlotEnd(s), m.recvNext) then d.ready == m.ready
                else Distance(s.start, m.recvNext) <= 0
                     && |d.ready| == |m.ready| + Distance(s.start, m.recvNext) + |s.payload|)
  {
    var s := m.slots[i];
    if !SeqLe(SlotEnd(s), m.recvNext) {
      DeliverMoves(m, s.start, s.payload);
    }
  }

  /** A slot that cannot be delivered shows more contiguous bytes than there is room for. */
  lemma StuckMeansTooMuch(c: Conn, seg: Segment, m: Conn, i: nat)
    requires Gathered(c, seg, m) && i < |m.slots| && Promotable(m, m.slots[i]) && PromoteSlot(m, i).None?
    ensures TooMuch(c, seg)
  {
    var s := m.slots[i];
    SlotPlace(c, seg, m, i);
    DeliverMoves(m, s.start, s.payload);
    forall k | 0 <= k <= 32768 - |c.ready|
      ensures AtHand(c, seg, k)
    {
      if k >= Moved(c, m) {
        SlotAtHand(c, seg, i, k);
      }
    }
  }

  lemma {:induction false} ScanGathers(c: Conn, seg: Segment, m: Conn, i: nat, progress: bool)
    requires Gathered(c, seg, m) && i <= |m.slots|
    ensures var r := ScanSlots(m, i, progress); Gathered(c, seg, r.c) && (!r.ok ==> TooMuch(c, seg))
    decreases |m.slots| - i
  {
    if i < |m.slots| {
      if !Promotable(m, m.slots[i]) {
        ScanGathers(c, seg, m, i + 1, progress);
      } else if PromoteSlot(m, i).Some? {
        SlotGathers(c, seg, m, i);
        ScanGathers(c, seg, PromoteSlot(m, i).value, i + 1, true);
      } else {
        StuckMeansTooMuch(c, seg, m, i);
      }
    }
  }

  lemma {:induction false} PromotionGathers(c: Conn, seg: Segment, m: Conn)
    requires Gathered(c, seg, m)
    ensures var (d, ok) := PromoteSlots(m); Gathered(c, seg, d) && (!ok ==> TooMuch(c, seg))
    decreases UsedCount(m.slots)
  {
    var pass := ScanSlots(m, 0, false);
    ScanGathers(c, seg, m, 0, false);
    if pass.ok && pass.progress {
      PromotionGathers(c, seg, pass.c);
    }
  }

  /** After a promotion that came to its end the next byte is missing. */
  lemma NextIsMissing(c: Conn, seg: Segment, m: Conn)
    requires Gathered(c, seg, m) && AllAhead(m, 0)
    ensures !AtHand(c, seg, Moved(c, m))
  {
    forall i | 0 <= i < |c.slots| && c.slots[i].used
      ensures !Spans(c, c.slots[i].start, |c.slots[i].payload|, Moved(c, m))
    {
      if m.slots[i].used {
        SlotPlace(c, seg, m, i);
      }
    }
  }

  // ------------------------------------------------------------------ process_payload

  lemma DeliveryGathers(c: Conn, seg: Segment)
    requires SlotsInv(c) && Placed(c) && Delivered(c, seg)
    ensures Gathered(c, seg, Deliver(c, seg.seqNumber, seg.payload).value)
  {
    DeliverAdvances(c, seg.seqNumber, seg.payload);
    DeliverMoves(c, seg.seqNumber, seg.payload);
  }

  lemma DeliveredRoom(c: Conn, seg: Segment)
    requires SlotsInv(c) && Placed(c) && Delivered(c, seg)
    ensures var (m, ok) := Promoted(c, seg);
            && (ok <==> !TooMuch(c, seg))
            && (ok ==> Contiguous(c, seg, Moved(c, m)))
  {
    var d := Deliver(c, seg.seqNumber, seg.payload).value;
    var (m, ok) := Promoted(c, seg);
    DeliveryGathers(c, seg);
    PromotionGathers(c, seg, d);
    if ok {
      PromoteReachesFixpoint(d);
      NextIsMissing(c, seg, m);
    }
  }

  /** The next `n` bytes are at hand, and no more. */
  predicate Contiguous(c: Conn, seg: Segment, n: int) {
    n >= 0 && (forall k :: 0 <= k < n ==> AtHand(c, seg, k)) && !AtHand(c, seg, n)
  }

  /** A payload too long for the ready buffer by itself. */
  lemma RefusedRoom(c: Conn, seg: Segment)
    requires Straddles(c, seg.seqNumber, seg.payload) && Deliver(c, seg.seqNumber, seg.payload).None?
    ensures TooMuch(c, seg)
  {
    DeliverMoves(c, seg.seqNumber, seg.payload);
  }

  lemma FutureRoom(c: Conn, seg: Segment)
    requires SlotsInv(c) && Future(c, seg)
    ensures ProcessPayload(c, seg).1 <==> !NoRoom(c, seg)
  {
    assert Held(c, seg) <==> AlreadyBuffered(c.slots, seg.seqNumber, Wrap(seg.seqNumber + |seg.payload|)) by {
      HeldIsBuffered(c, seg);
    }
  }

  lemma HeldIsBuffered(c: Conn, seg: Segment)
    ensures Held(c, seg) <==> AlreadyBuffered(c.slots, seg.seqNumber, Wrap(seg.seqNumber + |seg.payload|))
  {
    if Held(c, seg) {
      var i :| 0 <= i < |c.slots| && c.slots[i].used
        && Distance(seg.seqNumber, c.slots[i].start) >= 0
        && Distance(Wrap(seg.seqNumber + |seg.payload|), Wrap(c.slots[i].start + |c.slots[i].payload|)) <= 0;
      assert Contains(c.slots[i], seg.seqNumber, Wrap(seg.seqNumber + |seg.payload|));
    }
    if i :| 0 <= i < |c.slots| && Contains(c.slots[i], seg.seqNumber, Wrap(seg.seqNumber + |seg.payload|)) {
      assert c.slots[i].used;
    }
  }

  /**
   process_payload fails exactly when there is no room; when it succeeds on a payload at the receive
   position, what is delivered is everything that was contiguous.
   */
  lemma PayloadRoom(c: Conn, seg: Segment)
    requires SlotsInv(c) && Placed(c)
    ensures var (d, ok) := ProcessPayload(c, seg);
            && (ok <==> !NoRoom(c, seg))
            && (ok && Unseen(c, seg) && !Future(c, seg) ==>
                  Contiguous(c, seg, |d.hist.appended| - |c.hist.appended|))
  {
    if Future(c, seg) {
      FutureRoom(c, seg);
    } else if Unseen(c, seg) {
      StraddlingRoom(c, seg);
    }
  }

  lemma StraddlingRoom(c: Conn, seg: Segment)
    requires SlotsInv(c) && Placed(c) && Unseen(c, seg) && !Future(c, seg)
    ensures var (d, ok) := ProcessPayload(c, seg);
            && (ok <==> !TooMuch(c, seg))
            && (ok ==> Contiguous(c, seg, |d.hist.appended| - |c.hist.appended|))
  {
    if Deliver(c, seg.seqNumber, seg.payload).None? {
      RefusedRoom(c, seg);
    } else {
      DeliveredRoom(c, seg);
      PayloadPaths(c, seg);
      ConsumeShape(Promoted(c, seg).0);
    }
  }

  // ------------------------------------------------------------------------------- runs

  /** Every slot starts after the receive position, but for the FINs taken, and ends within half the circle. */
  predicate PastFins(c: Conn) {
    forall i :: 0 <= i < |c.slots| && c.slots[i].used ==>
      0 < c.hist.fins + Distance(c.slots[i].start, c.recvNext)
      && Distance(c.slots[i].start, c.recvNext) + |c.slots[i].payload| < HALF
  }

  lemma FinsShiftSlots(c: Conn, d: Conn)
    requires FinsTaken(c, d) && PastFins(c) && d.hist.fins <= WINDOW
    ensures PastFins(d)
  {
    forall i | 0 <= i < |c.slots| && c.slots[i].used
      ensures Distance(c.slots[i].start, d.recvNext) == Distance(c.slots[i].start, c.recvNext) - (d.hist.fins - c.hist.fins)
    {
      TailShifts(c.slots[i].start, c.recvNext, d.hist.fins - c.hist.fins);
    }
  }

  /** What promotion leaves is ahead. */
  lemma AheadIsPast(m: Conn)
    requires AllAhead(m, 0) && SlotsFit(m.slots) && m.hist.fins >= 0
    ensures PastFins(m)
  {
    forall i | 0 <= i < |m.slots| && m.slots[i].used
      ensures 0 < Distance(m.slots[i].start, m.recvNext) < HALF - |m.slots[i].payload|
    {
      assert !Promotable(m, m.slots[i]);
      EndAhead(m.slots[i].start, |m.slots[i].payload|, m.recvNext);
    }
  }

  lemma BufferedIsPast(c: Conn, seg: Segment)
    requires PastFins(c) && Buffered(c, seg)
    ensures PastFins(BufferFuture(c, seg.seqNumber, seg.payload).value)
  {
    BufferCases(c, seg.seqNumber, seg.payload);
    EndAhead(seg.seqNumber, |seg.payload|, c.recvNext);
  }

  lemma PayloadKeepsPast(c: Conn, seg: Segment)
    requires SlotsInv(c) && PastFins(c) && ProcessPayload(c, seg).1
    requires ProcessPayload(c, seg).0.hist.fins <= WINDOW
    ensures PastFins(ProcessPayload(c, seg).0)
  {
    PayloadPaths(c, seg);
    if Buffered(c, seg) {
      BufferedIsPast(c, seg);
    } else if Delivered(c, seg) {
      var m := Promoted(c, seg).0;
      AheadIsPast(m);
      ConsumeShape(m);
      FinsShiftSlots(m, ConsumePendingFin(m));
    }
  }

  lemma ReceiveKeepsPast(c: Conn, seg: Segment)
    requires SlotsInv(c) && PastFins(c) && Receive(c, seg).1 == 0 && Receive(c, seg).0.hist.fins <= WINDOW
    ensures PastFins(Receive(c, seg).0)
  {
    var p := ProcessPayload(c, seg).0;
    AfterPayloadShape(p, seg);
    PayloadKeepsPast(c, seg);
    FinsShiftSlots(p, AfterPayload(p, seg));
  }

  /** Receiving never forgets a FIN. */
  lemma FinsGrow(c: Conn, seg: Segment)
    requires Inv(c) && c.state != Reset
    ensures Receive(c, seg).0.hist.fins >= c.hist.fins
  {
    PayloadKeepsInv(c, seg);
    AfterPayloadShape(ProcessPayload(c, seg).0, seg);
  }

  /** Where the slots are in a run without a -2. */
  predicate Ranged(c: Conn) {
    && (c.hist.irs.None? ==> Quiet(c))
    && (c.hist.irs.Some? && c.state != Reset && c.hist.fins <= WINDOW ==> PastFins(c))
  }

  lemma ReceiveKeepsRange(w: World, a: Conn, seg: Segment)
    requires Inv(a) && SameReceive(w.c, a) && a.state == w.c.state && Receiving(a.state) && Ranged(w.c)
    requires !AfterReceive(w, a, seg).overflow
    ensures Ranged(AfterReceive(w, a, seg).c)
  {
    PayloadKeepsInv(a, seg);
    AfterPayloadShape(ProcessPayload(a, seg).0, seg);
    FinsGrow(a, seg);
    if Receive(a, seg).0.hist.fins <= WINDOW {
      ReceiveKeepsPast(a, seg);
    }
  }

  lemma ArriveKeepsRange(w: World, seg: Segment)
    requires Inv(w.c) && Ranged(w.c) && Addressed(w.c, seg) && !seg.flags.rst && !Next(w, Arrive(seg)).overflow
    ensures Ranged(Next(w, Arrive(seg)).c)
  {
    AckKeepsReceive(w.c, seg);
    ArriveCases(w, seg);
    if Receiving(w.c.state) {
      ReceiveKeepsRange(w, Acked(w.c, seg), seg);
    }
  }

  lemma StepKeepsRange(w: World, e: Event)
    requires Inv(w.c) && Ranged(w.c) && Patient(w, e) && !Next(w, e).overflow
    ensures Ranged(Next(w, e).c)
  {
    if !e.Arrive? {
      OtherEventsKeepReceive(w, e);
    } else if Addressed(w.c, e.seg) && !e.seg.flags.rst {
      ArriveKeepsRange(w, e.seg);
    }
  }

  lemma {:induction false} RunKeepsRange(w: World, es: seq<Event>)
    requires Start(w) && PatientRun(w, es) && !Run(w, es).overflow
    ensures Ranged(Run(w, es).c)
  {
    if es != [] {
      RunKeepsRange(w, es[..|es| - 1]);
      StepKeepsRange(Run(w, es[..|es| - 1]), es[|es| - 1]);
    }
  }

  // --------------------------------------------------------------------------- theorems

  /** The segment reaches payload processing. */
  predicate Reaches(c: Conn, seg: Segment) {
    seg.sourcePort == c.remotePort && seg.destinationPort == c.localPort && !seg.flags.rst && Receiving(c.state)
  }

  /** -2 means no room, and no room means -2. */
  lemma RefusedExactly(c: Conn, seg: Segment)
    requires Inv(c) && Placed(c) && Reaches(c, seg)
    ensures OnSegment(c, seg).1 == (if NoRoom(c, seg) then -2 else 0)
  {
    AckKeepsReceive(c, seg);
    assert Acked(c, seg).ready == c.ready;
    SameRoom(c, Acked(c, seg), seg);
    PayloadRoom(Acked(c, seg), seg);
  }

  lemma SameRoom(c: Conn, a: Conn, seg: Segment)
    requires SameReceive(c, a) && a.ready == c.ready && |c.slots| == 16
    ensures NoRoom(a, seg) <==> NoRoom(c, seg)
    ensures Placed(a) <==> Placed(c)
    ensures forall k :: AtHand(a, seg, k) <==> AtHand(c, seg, k)
  {
    assert forall k :: AtHand(a, seg, k) <==> AtHand(c, seg, k);
    assert Held(a, seg) <==> Held(c, seg);
  }

  /**
   In every run that has not seen a -2, whatever the peer sent and however far away: the next call
   returns -2 if and only if there is no room. (The FINs of a peer that sends more than 2^31 of them
   carry the receive position half the circle past the slots.)
   */
  lemma RefusedExactlyInRuns(w: World, es: seq<Event>, seg: Segment)
    requires Start(w) && PatientRun(w, es) && !Run(w, es).overflow && Run(w, es).c.hist.fins <= WINDOW
    requires Reaches(Run(w, es).c, seg)
    ensures var c := Run(w, es).c; OnSegment(c, seg).1 == (if NoRoom(c, seg) then -2 else 0)
  {
    RunKeepsRange(w, es);
    RefusedExactly(Run(w, es).c, seg);
  }

  /** What a successful call delivers is everything that has become contiguous, and nothing else. */
  lemma DeliversContiguous(c: Conn, seg: Segment)
    requires Inv(c) && Placed(c) && Reaches(c, seg) && OnSegment(c, seg).1 == 0
    ensures var n := |OnSegment(c, seg).0.hist.appended| - |c.hist.appended|;
            if Unseen(c, seg) && !Future(c, seg) then Contiguous(c, seg, n) else n == 0
  {
    var a := Acked(c, seg);
    AckKeepsReceive(c, seg);
    assert a.ready == c.ready;
    SameRoom(c, a, seg);
    PayloadRoom(a, seg);
    PayloadPaths(a, seg);
    AfterPayloadShape(ProcessPayload(a, seg).0, seg);
  }

  /** With a free slot, up to 2048 bytes ahead of the receive position are accepted and held. */
  lemma FutureIsHeld(c: Conn, seg: Segment)
    requires Counting(c) && SlotsAhead(c) && InWindow(c, seg) && Reaches(c, seg) && Future(c, seg)
    requires |seg.payload| <= 2048 && exists i :: 0 <= i < |c.slots| && !c.slots[i].used
    ensures OnSegment(c, seg).1 == 0
    ensures forall x :: SegmentHas(c, seg, x) ==> Covered(OnSegment(c, seg).0, x)
  {
    var a := Acked(c, seg);
    AckKeepsReceive(c, seg);
    FutureRoom(a, seg);
    PayloadRefinesUnion([], a, seg);
    PayloadPaths(a, seg);
    BufferCases(a, seg.seqNumber, seg.payload);
    KeepsHeld(a, seg);
  }

  lemma KeepsHeld(a: Conn, seg: Segment)
    requires Counting(a) && ProcessPayload(a, seg).1 && SlotsAhead(ProcessPayload(a, seg).0)
    requires ProcessPayload(a, seg).0.hist.fins == 0
    ensures Receive(a, seg).1 == 0
    ensures forall x :: Covered(ProcessPayload(a, seg).0, x) ==> Covered(Receive(a, seg).0, x)
  {
    var p := ProcessPayload(a, seg).0;
    AfterPayloadShape(p, seg);
    TcpPastFin.FinsKeepSlots(p, AfterPayload(p, seg));
  }
}

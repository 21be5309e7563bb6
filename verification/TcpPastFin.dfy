/**
 Reassembly past a FIN, for any peer: CLOSE_WAIT and LAST_ACK go on receiving, and the sequence
 number of a consumed FIN counts as no byte. This module says exactly when the bytes delivered
 are still counted by the least offset not accepted.
 */
module TcpPastFin {
  import opened Bytes
  import opened SequenceSpace
  import opened TcpSegment
  import opened TcpModel
  import opened TcpEvents
  import opened TcpInvariants
  import opened TcpReassembly
  import opened TcpRuns

  /** What the connection holds is what was accepted, and the bytes delivered count its least missing offset. */
  ghost predicate Refines(w: World) {
    var n := Received(w.c);
    && n !in w.got && (forall x :: 0 <= x < n ==> x in w.got)
    && (forall x :: x in w.got <==> Covered(w.c, x))
  }

  /**
   A payload past the FIN that does no harm: it starts behind a gap, or it ends at or before the
   receive position and brings nothing that is not held.
   */
  ghost predicate Harmless(c: Conn, seg: Segment) {
    || seg.payload == []
    || Off(c, seg.seqNumber) > Position(c)
    || (Off(c, seg.seqNumber) + |seg.payload| <= Position(c) && forall x :: SegmentHas(c, seg, x) ==> Covered(c, x))
  }

  /** Slots lie past every byte delivered, though perhaps not past the FINs. */
  predicate SlotsBeyond(c: Conn) {
    forall i :: 0 <= i < |c.slots| && c.slots[i].used ==>
      Received(c) < SlotOff(c, i) <= Received(c) + WINDOW
  }

  /** The window, counted from the oldest offset a slot can have: every distance the code compares is below 2^31. */
  predicate Close(c: Conn, seg: Segment) {
    && c.hist.fins <= WINDOW
    && (seg.payload != [] || seg.flags.fin ==>
          -WINDOW <= Distance(seg.seqNumber, c.recvNext) <= WINDOW - c.hist.fins)
  }

  predicate PastFin(c: Conn) {
    && Inv(c) && c.state != Reset && c.hist.irs.Some?
    && 0 < c.hist.fins <= WINDOW + 3 && SlotsBeyond(c)
  }

  /** With one FIN taken the harm is done exactly at the FIN's offset and the one right behind it. */
  lemma HarmIsAtTheFin(c: Conn, seg: Segment)
    requires PastFin(c) && c.hist.fins == 1
    ensures Harmless(c, seg) <==>
              !SegmentHas(c, seg, Received(c)) && !SegmentHas(c, seg, Received(c) + 1)
  {
    var n := Received(c);
    assert !Covered(c, n);
  }

  // ------------------------------------------------------------------------ slots stay put

  /** FINs move the position, not the slots. */
  lemma FinsKeepSlots(c: Conn, d: Conn)
    requires FinsTaken(c, d) && SlotsBeyond(c) && d.hist.fins <= WINDOW + 3
    ensures SlotsBeyond(d)
    ensures forall x :: Covered(d, x) <==> Covered(c, x)
    ensures forall i, x :: 0 <= i < |c.slots| ==> (SlotHas(d, i, x) <==> SlotHas(c, i, x))
  {
    forall i | 0 <= i < |c.slots| && c.slots[i].used
      ensures SlotOff(d, i) == SlotOff(c, i)
    {
      OffStable(c, d, c.slots[i].start);
    }
    forall x
      ensures Covered(d, x) <==> Covered(c, x)
    {
      SameSlotsCover(c, d, x);
      SameSlotsCover(c, c, x);
    }
  }

  /** Where the slots that are left after a promotion lie: where they were, and ahead. */
  lemma AdvanceKeepsSlots(c: Conn, m: Conn)
    requires SlotsInv(c) && SlotsBeyond(c) && 0 <= c.hist.fins <= WINDOW + 3 && Advanced(c, m)
    ensures forall i :: 0 <= i < |c.slots| && m.slots[i].used ==>
              m.slots[i] == c.slots[i] && SlotOff(m, i) == SlotOff(c, i)
    ensures AllAhead(m, 0) ==>
              forall i :: 0 <= i < |c.slots| && m.slots[i].used ==> Position(m) < SlotOff(m, i)
  {
    forall i | 0 <= i < |c.slots| && m.slots[i].used
      ensures m.slots[i] == c.slots[i] && SlotOff(m, i) == SlotOff(c, i)
    {
      OffStable(c, m, c.slots[i].start);
    }
  }

  // ----------------------------------------------------------------- the last byte promoted

  /** Every offset in a slot is in `g`. */
  ghost predicate SlotsIn(c: Conn, g: set<int>) {
    forall i, x :: 0 <= i < |c.slots| && SlotHas(c, i, x) ==> x in g
  }

  /** A promotion that began at `entry` has come to `c`, and the byte before the position was accepted. */
  ghost predicate Reaches(entry: Conn, c: Conn, g: set<int>) {
    && SlotsInv(entry) && SlotsBeyond(entry) && 0 <= entry.hist.fins <= WINDOW + 3 && SlotsIn(entry, g)
    && Advanced(entry, c) && SlotsFit(c.slots) && c.slotCount == UsedCount(c.slots)
    && Position(c) - 1 in g
  }

  /** A delivered range ends at the new position. */
  lemma DeliverEnds(c: Conn, start: U32, payload: seq<U8>)
    requires |payload| <= MAX_PAYLOAD_LEN && Straddles(c, start, payload) && Deliver(c, start, payload).Some?
    ensures Position(Deliver(c, start, payload).value) == Off(c, start) + |payload|
    ensures Off(c, start) <= Position(c) < Off(c, start) + |payload|
  {
    DeliverAdvances(c, start, payload);
    OverlapFits(start, |payload|, c.recvNext);
    OverlapIsDistance(start, c.recvNext);
  }

  /** The byte before the position is still one that was accepted after a slot is dropped or delivered. */
  lemma SlotLast(entry: Conn, c: Conn, i: nat, g: set<int>)
    requires Reaches(entry, c, g)
    requires i < |c.slots| && Promotable(c, c.slots[i]) && PromoteSlot(c, i).Some?
    ensures Position(PromoteSlot(c, i).value) - 1 in g
  {
    var s := c.slots[i];
    if !SeqLe(SlotEnd(s), c.recvNext) {
      DeliverEnds(c, s.start, s.payload);
      AdvanceKeepsSlots(entry, c);
      assert SlotHas(entry, i, SlotStop(entry, i) - 1);
    }
  }

  lemma SlotReaches(entry: Conn, c: Conn, i: nat, g: set<int>)
    requires Reaches(entry, c, g)
    requires i < |c.slots| && Promotable(c, c.slots[i]) && PromoteSlot(c, i).Some?
    ensures var d := PromoteSlot(c, i).value; Reaches(entry, d, g) && |d.slots| == |c.slots|
  {
    SlotLast(entry, c, i, g);
    SlotAdvancesFrom(entry, c, i);
  }

  lemma {:induction false} ScanLast(entry: Conn, c: Conn, i: nat, progress: bool, g: set<int>)
    requires Reaches(entry, c, g) && i <= |c.slots|
    ensures Reaches(entry, ScanSlots(c, i, progress).c, g)
    decreases |c.slots| - i
  {
    if i < |c.slots| && !Promotable(c, c.slots[i]) {
      ScanLast(entry, c, i + 1, progress, g);
    } else if i < |c.slots| && PromoteSlot(c, i).Some? {
      SlotReaches(entry, c, i, g);
      ScanLast(entry, PromoteSlot(c, i).value, i + 1, true, g);
    }
  }

  lemma {:induction false} PromotionLast(entry: Conn, c: Conn, g: set<int>)
    requires Reaches(entry, c, g)
    ensures Reaches(entry, PromoteSlots(c).0, g)
    decreases UsedCount(c.slots)
  {
    var pass := ScanSlots(c, 0, false);
    ScanLast(entry, c, 0, false, g);
    if pass.ok && pass.progress {
      PromotionLast(entry, pass.c, g);
    }
  }

  // --------------------------------------------------------------------- broken for good

  /** An accepted offset, not delivered and in no slot, behind the position: no later call can mend it. */
  ghost predicate LostAt(c: Conn, g: set<int>, x: int) {
    && x in g && Received(c) <= x < Position(c)
    && forall i :: 0 <= i < |c.slots| ==> !SlotHas(c, i, x)
  }

  ghost predicate Lost(c: Conn, g: set<int>) {
    exists x :: LostAt(c, g, x)
  }

  /** What is held is what was accepted. */
  ghost predicate Holds(c: Conn, g: set<int>) {
    forall x :: x in g <==> Covered(c, x)
  }

  lemma HoldsIsRefines(w: World)
    requires PastFin(w.c)
    ensures Holds(w.c, w.got) <==> Refines(w)
    ensures Holds(w.c, w.got) ==> SlotsIn(w.c, w.got) && !Lost(w.c, w.got)
  {
    if Holds(w.c, w.got) {
      forall i, x | 0 <= i < |w.c.slots| && SlotHas(w.c, i, x)
        ensures x in w.got
      {
        assert Covered(w.c, x);
      }
    }
  }

  /** Where things stand: everything held was accepted, and the refinement holds or is lost. */
  ghost predicate Outcome(c: Conn, g: set<int>, kept: bool) {
    SlotsIn(c, g) && if kept then Holds(c, g) else Lost(c, g)
  }

  lemma FinsKeepOutcome(c: Conn, d: Conn, g: set<int>, kept: bool)
    requires FinsTaken(c, d) && SlotsBeyond(c) && d.hist.fins <= WINDOW + 3 && Outcome(c, g, kept)
    ensures SlotsBeyond(d) && Outcome(d, g, kept)
  {
    FinsKeepSlots(c, d);
    if !kept {
      var x :| LostAt(c, g, x);
      assert LostAt(d, g, x);
    }
  }

  /** `g'` is `g` and the offsets of the payload. */
  ghost predicate Grown(c: Conn, seg: Segment, g: set<int>, g': set<int>) {
    forall x :: x in g' <==> x in g || SegmentHas(c, seg, x)
  }

  /** What is lost stays lost while the slots only gain ranges ahead. */
  lemma StaysLost(c: Conn, d: Conn, g: set<int>, g': set<int>)
    requires Lost(c, g) && (forall x :: x in g ==> x in g') && Received(d) == Received(c) && Position(d) == Position(c)
    requires |d.slots| == |c.slots|
    requires forall i, x :: 0 <= i < |c.slots| && x < Position(c) && SlotHas(d, i, x) ==> SlotHas(c, i, x)
    ensures Lost(d, g')
  {
    var x :| LostAt(c, g, x);
    assert LostAt(d, g', x);
  }

  // ------------------------------------------------------------------ the payload stage

  lemma IgnoredOutcome(c: Conn, seg: Segment, g: set<int>, g': set<int>, kept: bool)
    requires PastFin(c) && Close(c, seg) && Grown(c, seg, g, g') && Outcome(c, g, kept)
    requires seg.payload == [] || SeqLe(FinSeq(seg), c.recvNext)
    ensures Outcome(c, g', kept && Harmless(c, seg))
  {
    if !kept {
      StaysLost(c, c, g, g');
    } else if seg.payload != [] {
      StopIsOff(c, seg.seqNumber, |seg.payload|);
      if !Harmless(c, seg) {
        var x :| SegmentHas(c, seg, x) && !Covered(c, x);
        assert LostAt(c, g', x);
      }
    }
  }

  /** A payload contained in a slot brings nothing new. */
  lemma ContainedPastFin(c: Conn, seg: Segment)
    requires PastFin(c) && Close(c, seg) && seg.payload != [] && SeqGt(seg.seqNumber, c.recvNext)
    requires AlreadyBuffered(c.slots, seg.seqNumber, FinSeq(seg))
    ensures forall x :: SegmentHas(c, seg, x) ==> exists i :: 0 <= i < |c.slots| && SlotHas(c, i, x)
  {
    var i :| 0 <= i < |c.slots| && Contains(c.slots[i], seg.seqNumber, FinSeq(seg));
    ContainedInSlot(c, seg, i);
  }

  lemma ContainedOutcome(c: Conn, seg: Segment, g: set<int>, g': set<int>, kept: bool)
    requires PastFin(c) && Close(c, seg) && Grown(c, seg, g, g') && Outcome(c, g, kept)
    requires seg.payload != [] && SeqGt(seg.seqNumber, c.recvNext)
    requires AlreadyBuffered(c.slots, seg.seqNumber, FinSeq(seg))
    ensures Outcome(c, g', kept)
  {
    ContainedPastFin(c, seg);
    if !kept {
      StaysLost(c, c, g, g');
    }
  }

  /** `d` is `c` with the payload in slot `i`. */
  predicate Stored(c: Conn, d: Conn, seg: Segment, i: nat) {
    && i < |c.slots| && !c.slots[i].used
    && d == c.(slots := c.slots[i := Slot(true, seg.seqNumber, seg.payload)], slotCount := c.slotCount + 1)
  }

  lemma StoredSlots(c: Conn, d: Conn, seg: Segment, i: nat)
    requires Stored(c, d, seg, i) && Off(c, seg.seqNumber) > Position(c) >= 0
    ensures forall k, x :: 0 <= k < |c.slots| ==>
              (SlotHas(d, k, x) <==> if k == i then SegmentHas(c, seg, x) else SlotHas(c, k, x))
    ensures forall x :: Covered(d, x) <==> Covered(c, x) || SegmentHas(c, seg, x)
  {
    forall x
      ensures Covered(d, x) <==> Covered(c, x) || SegmentHas(c, seg, x)
    {
      if k :| 0 <= k < |c.slots| && SlotHas(c, k, x) {
        assert SlotHas(d, k, x);
      }
      if k :| 0 <= k < |d.slots| && SlotHas(d, k, x) {
        assert k != i ==> SlotHas(c, k, x);
      }
      assert SegmentHas(c, seg, x) ==> SlotHas(d, i, x);
    }
  }

  lemma StoredOutcome(c: Conn, d: Conn, seg: Segment, i: nat, g: set<int>, g': set<int>, kept: bool)
    requires PastFin(c) && Close(c, seg) && Grown(c, seg, g, g') && Outcome(c, g, kept)
    requires seg.payload != [] && SeqGt(seg.seqNumber, c.recvNext) && Stored(c, d, seg, i)
    ensures SlotsBeyond(d) && Outcome(d, g', kept)
  {
    StoredSlots(c, d, seg, i);
    assert forall k :: 0 <= k < |c.slots| && k != i ==> d.slots[k] == c.slots[k];
    if !kept {
      StaysLost(c, d, g, g');
    }
  }

  lemma BufferedOutcome(c: Conn, seg: Segment, g: set<int>, g': set<int>, kept: bool)
    requires PastFin(c) && Close(c, seg) && Grown(c, seg, g, g') && Outcome(c, g, kept) && Buffered(c, seg)
    ensures var d := BufferFuture(c, seg.seqNumber, seg.payload).value;
            SlotsBeyond(d) && Outcome(d, g', kept && Harmless(c, seg))
  {
    var d := BufferFuture(c, seg.seqNumber, seg.payload).value;
    BufferCases(c, seg.seqNumber, seg.payload);
    if AlreadyBuffered(c.slots, seg.seqNumber, FinSeq(seg)) {
      ContainedOutcome(c, seg, g, g', kept);
    } else {
      StoredOutcome(c, d, seg, FreeSlot(c.slots, 0), g, g', kept);
    }
  }

  /** In-order payload past a FIN breaks the refinement for good. */
  lemma DeliveredOutcome(c: Conn, seg: Segment, g: set<int>, g': set<int>)
    requires PastFin(c) && Close(c, seg) && Grown(c, seg, g, g') && SlotsIn(c, g)
    requires Delivered(c, seg) && Promoted(c, seg).1
    ensures var m := Promoted(c, seg).0; SlotsBeyond(m) && Outcome(m, g', false)
    ensures !Harmless(c, seg)
  {
    DeliverEnds(c, seg.seqNumber, seg.payload);
    LastByteAccepted(c, seg, g, g');
    assert Advanced(c, Promoted(c, seg).0) && AllAhead(Promoted(c, seg).0, 0) by {
      PayloadPaths(c, seg);
    }
    NothingBehind(c, Promoted(c, seg).0, g');
  }

  lemma LastByteAccepted(c: Conn, seg: Segment, g: set<int>, g': set<int>)
    requires PastFin(c) && Grown(c, seg, g, g') && SlotsIn(c, g) && Delivered(c, seg)
    ensures Position(Promoted(c, seg).0) - 1 in g'
  {
    DeliveredReaches(c, seg, g, g');
    PromotionLast(c, Deliver(c, seg.seqNumber, seg.payload).value, g');
  }

  lemma DeliveredReaches(c: Conn, seg: Segment, g: set<int>, g': set<int>)
    requires PastFin(c) && Grown(c, seg, g, g') && SlotsIn(c, g) && Delivered(c, seg)
    ensures Reaches(c, Deliver(c, seg.seqNumber, seg.payload).value, g')
  {
    var d := Deliver(c, seg.seqNumber, seg.payload).value;
    DeliverAdvances(c, seg.seqNumber, seg.payload);
    DeliverEnds(c, seg.seqNumber, seg.payload);
    assert SegmentHas(c, seg, Position(d) - 1);
  }

  /** After a promotion no slot is left behind, so the byte before the position is in none. */
  lemma NothingBehind(c: Conn, m: Conn, g': set<int>)
    requires PastFin(c) && Advanced(c, m) && AllAhead(m, 0) && SlotsIn(c, g') && Position(m) - 1 in g'
    ensures SlotsBeyond(m) && Outcome(m, g', false)
  {
    AdvanceKeepsSlots(c, m);
    assert LostAt(m, g', Position(m) - 1);
    forall i, x | 0 <= i < |m.slots| && SlotHas(m, i, x)
      ensures x in g'
    {
      assert SlotHas(c, i, x);
    }
  }

  lemma PayloadOutcome(c: Conn, seg: Segment, g: set<int>, g': set<int>, kept: bool)
    requires PastFin(c) && Close(c, seg) && Grown(c, seg, g, g') && Outcome(c, g, kept)
    requires ProcessPayload(c, seg).1
    ensures var p := ProcessPayload(c, seg).0;
            && SlotsBeyond(p) && Outcome(p, g', kept && Harmless(c, seg))
            && c.hist.fins <= p.hist.fins <= c.hist.fins + 1
  {
    PayloadPaths(c, seg);
    if Buffered(c, seg) {
      BufferCases(c, seg.seqNumber, seg.payload);
      BufferedOutcome(c, seg, g, g', kept);
    } else if Delivered(c, seg) {
      var m := Promoted(c, seg).0;
      DeliveredOutcome(c, seg, g, g');
      ConsumeShape(m);
      FinsKeepOutcome(m, ConsumePendingFin(m), g', false);
    } else {
      IgnoredOutcome(c, seg, g, g', kept);
    }
  }

  /** Receiving keeps the invariant and does not reset. */
  lemma ReceiveLives(c: Conn, seg: Segment)
    requires Inv(c) && c.state != Reset && c.hist.irs.Some?
    ensures var d := Receive(c, seg).0; Inv(d) && d.state != Reset && d.hist.irs.Some?
  {
    var p := ProcessPayload(c, seg).0;
    ReceiveKeepsInv(c, seg);
    assert p.state != Reset && p.hist.irs.Some? by {
      PayloadKeepsInv(c, seg);
    }
    AfterPayloadShape(p, seg);
    AfterPayloadLives(p, seg);
  }

  /** One accepted segment past a FIN: the refinement goes on exactly when it held and the payload is harmless. */
  lemma ReceiveOutcome(c: Conn, seg: Segment, g: set<int>, g': set<int>, kept: bool)
    requires PastFin(c) && Close(c, seg) && Grown(c, seg, g, g') && Outcome(c, g, kept)
    requires Receive(c, seg).1 == 0
    ensures var d := Receive(c, seg).0; PastFin(d) && Outcome(d, g', kept && Harmless(c, seg))
  {
    var p := ProcessPayload(c, seg).0;
    ReceiveLives(c, seg);
    PayloadOutcome(c, seg, g, g', kept);
    AfterPayloadShape(p, seg);
    FinsKeepOutcome(p, AfterPayload(p, seg), g', kept && Harmless(c, seg));
  }

  // ---------------------------------------------------------------------- the first FIN

  lemma FirstPayload(c: Conn, seg: Segment)
    requires Counting(c) && SlotsAhead(c) && InWindow(c, seg) && ProcessPayload(c, seg).1
    ensures var p := ProcessPayload(c, seg).0; SlotsBeyond(p) && p.hist.fins <= 1
  {
    PayloadPaths(c, seg);
    PayloadRefinesUnion([], c, seg);
    if Delivered(c, seg) {
      var m := Promoted(c, seg).0;
      DeliverCovers([], c, seg);
      PromotionKeepsBytes([], Deliver(c, seg.seqNumber, seg.payload).value);
      ConsumeShape(m);
      FinsKeepSlots(m, ConsumePendingFin(m));
    } else if Buffered(c, seg) {
      BufferCases(c, seg.seqNumber, seg.payload);
    }
  }

  /** Taking the first FIN leaves the refinement as it is. */
  lemma FirstFin(c: Conn, seg: Segment, g: set<int>, g': set<int>)
    requires Counting(c) && SlotsAhead(c) && InWindow(c, seg) && Grown(c, seg, g, g') && Holds(c, g)
    requires Receive(c, seg).1 == 0 && Receive(c, seg).0.hist.fins > 0
    ensures var d := Receive(c, seg).0; PastFin(d) && Holds(d, g')
  {
    var p := ProcessPayload(c, seg).0;
    ReceiveLives(c, seg);
    FirstPayload(c, seg);
    PayloadRefinesUnion([], c, seg);
    AfterPayloadShape(p, seg);
    FinsKeepSlots(p, AfterPayload(p, seg));
  }

  // ------------------------------------------------------------------------------- runs

  /** The caller's part of the hypotheses, and the network's: everything within the window. */
  predicate CloseRun(w: World, es: seq<Event>)
    requires Inv(w.c)
  {
    es == [] ||
    (var v, e := Run(w, es[..|es| - 1]), es[|es| - 1];
     CloseRun(w, es[..|es| - 1]) && Patient(v, e) && (Processed(v.c, e) ==> Close(v.c, e.seg)))
  }

  lemma {:induction false} CloseIsAllowed(w: World, es: seq<Event>)
    requires Inv(w.c) && CloseRun(w, es)
    ensures AllowedRun(w, es)
  {
    if es != [] {
      CloseIsAllowed(w, es[..|es| - 1]);
    }
  }

  /** The event is not a payload that does harm past a FIN. */
  ghost predicate KeepsOn(c: Conn, e: Event) {
    Processed(c, e) && c.hist.fins > 0 ==> Harmless(c, e.seg)
  }

  ghost predicate KeptRun(w: World, es: seq<Event>)
    requires Inv(w.c)
  {
    es == [] || (KeptRun(w, es[..|es| - 1]) && KeepsOn(Run(w, es[..|es| - 1]).c, es[|es| - 1]))
  }

  /** What a run has come to. */
  ghost predicate Standing(w: World, kept: bool) {
    && (w.c.hist.irs.None? ==> kept)
    && (w.c.hist.irs.Some? && w.c.state != Reset && !w.overflow ==>
          if w.c.hist.fins == 0 then kept else PastFin(w.c) && Outcome(w.c, w.got, kept))
  }

  lemma SameReceiveOutcome(c: Conn, d: Conn, g: set<int>, kept: bool)
    requires PastFin(c) && Outcome(c, g, kept) && SameReceive(c, d) && Inv(d) && d.state != Reset
    ensures PastFin(d) && Outcome(d, g, kept)
  {
    SameReceiveCovers(c, d);
    assert forall i, x :: 0 <= i < |c.slots| ==> (SlotHas(d, i, x) <==> SlotHas(c, i, x));
    if !kept {
      var x :| LostAt(c, g, x);
      assert LostAt(d, g, x);
    }
  }

  lemma SameReceiveStands(w: World, d: Conn, kept: bool)
    requires Standing(w, kept) && SameReceive(w.c, d) && Inv(d) && (w.c.state == Reset ==> d.state == Reset)
    ensures Standing(w.(c := d), kept)
  {
    if d.hist.irs.Some? && d.state != Reset && !w.overflow && d.hist.fins > 0 {
      SameReceiveOutcome(w.c, d, w.got, kept);
    }
  }

  lemma SameReceiveHarm(c: Conn, a: Conn, seg: Segment)
    requires SameReceive(c, a)
    ensures Harmless(a, seg) <==> Harmless(c, seg)
  {
    SameReceiveCovers(c, a);
  }

  lemma RangeGrows(w: World, a: Conn, seg: Segment)
    requires SameReceive(w.c, a)
    ensures Grown(a, seg, w.got, w.got + Range(w.c, seg))
  {
  }

  /** A segment that reaches payload processing; `a` is the connection after its acknowledgment. */
  lemma ReceiveStands(w: World, a: Conn, seg: Segment, kept: bool)
    requires SetInv(w) && !w.overflow && Standing(w, kept)
    requires Inv(a) && SameReceive(w.c, a) && a.state == w.c.state && Receiving(a.state) && Close(a, seg)
    ensures Standing(AfterReceive(w, a, seg), kept && (a.hist.fins > 0 ==> Harmless(a, seg)))
  {
    var (d, r) := Receive(a, seg);
    var g' := w.got + Range(w.c, seg);
    PayloadKeepsInv(a, seg);
    AfterPayloadShape(ProcessPayload(a, seg).0, seg);
    RangeGrows(w, a, seg);
    if r == 0 && a.hist.fins > 0 {
      SameReceiveOutcome(w.c, a, w.got, kept);
      ReceiveOutcome(a, seg, w.got, g', kept);
    } else if r == 0 && d.hist.fins > 0 {
      SameReceiveCovers(w.c, a);
      FirstFin(a, seg, w.got, g');
      AllHeld(d, g');
    }
  }

  lemma AllHeld(c: Conn, g: set<int>)
    requires Holds(c, g)
    ensures Outcome(c, g, true)
  {
    forall i, x | 0 <= i < |c.slots| && SlotHas(c, i, x)
      ensures x in g
    {
      assert Covered(c, x);
    }
  }

  lemma ArriveStands(w: World, seg: Segment, kept: bool)
    requires SetInv(w) && !w.overflow && Standing(w, kept) && Addressed(w.c, seg) && !seg.flags.rst
    requires Receiving(w.c.state) ==> Close(w.c, seg)
    ensures Standing(Next(w, Arrive(seg)), kept && KeepsOn(w.c, Arrive(seg)))
  {
    var a := Acked(w.c, seg);
    AckKeepsReceive(w.c, seg);
    ArriveCases(w, seg);
    SameReceiveHarm(w.c, a, seg);
    if Receiving(w.c.state) {
      ReceiveStands(w, a, seg, kept);
    } else {
      SameReceiveStands(w, a, kept);
    }
  }

  lemma StepStands(w: World, e: Event, kept: bool)
    requires SetInv(w) && Standing(w, kept) && Patient(w, e) && (Processed(w.c, e) ==> Close(w.c, e.seg))
    ensures Standing(Next(w, e), kept && KeepsOn(w.c, e))
  {
    if !e.Arrive? {
      OtherEventsKeepReceive(w, e);
      SameReceiveStands(w, Next(w, e).c, kept);
    } else if Addressed(w.c, e.seg) && !e.seg.flags.rst {
      ArriveStands(w, e.seg, kept);
    }
  }

  lemma {:induction false} RunStands(w: World, es: seq<Event>)
    requires Start(w) && CloseRun(w, es)
    ensures SetInv(Run(w, es)) && Standing(Run(w, es), KeptRun(w, es))
  {
    CloseIsAllowed(w, es);
    RunKeepsSet(w, es);
    if es != [] {
      RunStands(w, es[..|es| - 1]);
      StepStands(Run(w, es[..|es| - 1]), es[|es| - 1], KeptRun(w, es[..|es| - 1]));
    }
  }

  // --------------------------------------------------------------------------- theorems

  /**
   The exact condition, for any peer: in every run without a -2 or a reset the connection refines
   the set of offsets accepted if and only if no payload accepted past a FIN did harm.
   */
  lemma RefinementExactly(w: World, es: seq<Event>)
    requires Start(w) && CloseRun(w, es)
    requires var v := Run(w, es); v.c.hist.irs.Some? && v.c.state != Reset && !v.overflow
    ensures Refines(Run(w, es)) <==> KeptRun(w, es)
  {
    RunStands(w, es);
    var v := Run(w, es);
    if v.c.hist.fins > 0 {
      HoldsIsRefines(v);
    }
  }

  /** The event brings no payload that touches the FIN's offset or the one right behind it. */
  predicate LeavesFinAlone(c: Conn, e: Event) {
    Processed(c, e) && c.hist.fins > 0 ==>
      !SegmentHas(c, e.seg, Received(c)) && !SegmentHas(c, e.seg, Received(c) + 1)
  }

  predicate UntouchedRun(w: World, es: seq<Event>)
    requires Inv(w.c)
  {
    es == [] || (UntouchedRun(w, es[..|es| - 1]) && LeavesFinAlone(Run(w, es[..|es| - 1]).c, es[|es| - 1]))
  }

  /** Whenever a call is made, at most one FIN has been consumed. */
  predicate OneFinRun(w: World, es: seq<Event>)
    requires Inv(w.c)
  {
    es == [] || (OneFinRun(w, es[..|es| - 1]) && Run(w, es[..|es| - 1]).c.hist.fins <= 1)
  }

  lemma {:induction false} KeptIsUntouched(w: World, es: seq<Event>)
    requires Start(w) && CloseRun(w, es) && OneFinRun(w, es)
    ensures KeptRun(w, es) <==> UntouchedRun(w, es)
  {
    if es != [] {
      var v, e := Run(w, es[..|es| - 1]), es[|es| - 1];
      KeptIsUntouched(w, es[..|es| - 1]);
      if Processed(v.c, e) && v.c.hist.fins > 0 {
        PastFinInRun(w, es[..|es| - 1]);
        HarmIsAtTheFin(v.c, e.seg);
      }
    }
  }

  lemma PastFinInRun(w: World, es: seq<Event>)
    requires Start(w) && CloseRun(w, es)
    requires var v := Run(w, es); !v.overflow && Receiving(v.c.state) && v.c.hist.fins == 1
    ensures PastFin(Run(w, es).c)
  {
    RunStands(w, es);
  }

  /** With one FIN: the refinement holds if and only if no payload since touched the FIN's offset or the next. */
  lemma OneFinExactly(w: World, es: seq<Event>)
    requires Start(w) && CloseRun(w, es) && OneFinRun(w, es)
    requires var v := Run(w, es); v.c.hist.irs.Some? && v.c.state != Reset && !v.overflow
    ensures Refines(Run(w, es)) <==> UntouchedRun(w, es)
  {
    RefinementExactly(w, es);
    KeptIsUntouched(w, es);
  }

  /** One accepted segment in CLOSE_WAIT or LAST_ACK: the refinement survives exactly a harmless payload. */
  lemma RefinementStep(w: World, seg: Segment)
    requires PastFin(w.c) && !w.overflow && Refines(w)
    requires Processed(w.c, Arrive(seg)) && Close(w.c, seg) && OnSegment(w.c, seg).1 == 0
    ensures w.c.state == CloseWait || w.c.state == LastAck
    ensures Refines(Next(w, Arrive(seg))) <==> Harmless(w.c, seg)
  {
    var a := Acked(w.c, seg);
    var w' := Next(w, Arrive(seg));
    HoldsIsRefines(w);
    AllHeld(w.c, w.got);
    AckKeepsReceive(w.c, seg);
    ArriveCases(w, seg);
    SameReceiveHarm(w.c, a, seg);
    SameReceiveOutcome(w.c, a, w.got, true);
    RangeGrows(w, a, seg);
    ReceiveOutcome(a, seg, w.got, w.got + Range(w.c, seg), true);
    HoldsIsRefines(w');
  }
}

/**
 Reassembly as a set of stream offsets. Sequence numbers are placed on the unbounded
 stream around the receive position; segments must arrive less than 2^31 from it.
 */
module TcpReassembly {
  import opened Bytes
  import opened SequenceSpace
  import opened TcpSegment
  import opened TcpModel
  import opened TcpInvariants

  /**
   How far from the receive position a segment may start: 2^31 but for the length of one segment.
   The comparisons need it, and the code itself has no window check.
   */
  const WINDOW: int := 0x7FFF_0000

  /** The stream offset of a sequence number: the one nearest the receive position. */
  function Off(c: Conn, q: U32): int {
    Position(c) + Distance(q, c.recvNext)
  }

  function SlotOff(c: Conn, i: nat): int
    requires i < |c.slots|
  {
    Off(c, c.slots[i].start)
  }

  function SlotStop(c: Conn, i: nat): int
    requires i < |c.slots|
  {
    SlotOff(c, i) + |c.slots[i].payload|
  }

  /** Segments that occupy no sequence numbers are not constrained. */
  predicate InWindow(c: Conn, seg: Segment) {
    seg.payload != [] || seg.flags.fin ==> -WINDOW <= Distance(seg.seqNumber, c.recvNext) <= WINDOW
  }

  /** The payload covers offset `x`. */
  predicate SegmentHas(c: Conn, seg: Segment, x: int) {
    var o := Off(c, seg.seqNumber);
    0 <= x && o <= x < o + |seg.payload|
  }

  predicate SlotHas(c: Conn, i: nat, x: int)
    requires i < |c.slots|
  {
    c.slots[i].used && SlotOff(c, i) <= x < SlotStop(c, i)
  }

  /** The connection holds offset `x`: delivered, or waiting in a slot. */
  ghost predicate Covered(c: Conn, x: int) {
    0 <= x < Received(c) || exists i :: 0 <= i < |c.slots| && SlotHas(c, i, x)
  }

  /** Between calls every slot lies strictly ahead of the receive position. */
  predicate SlotsAhead(c: Conn) {
    forall i :: 0 <= i < |c.slots| && c.slots[i].used ==>
      Position(c) < SlotOff(c, i) <= Position(c) + WINDOW
  }

  /** During promotion a slot may fall behind by what this call delivered, which the ready buffer bounds. */
  predicate SlotsNear(c: Conn) {
    forall i :: 0 <= i < |c.slots| && c.slots[i].used ==>
      && 0 < SlotOff(c, i)
      && Position(c) - |c.ready| < SlotOff(c, i) <= Position(c) + WINDOW
  }

  /** Delivered and buffered bytes are the bytes of stream `s` at their offsets. */
  predicate Matches(s: seq<U8>, c: Conn) {
    && 0 <= Received(c) <= |s|
    && c.hist.base <= |c.hist.appended|
    && c.hist.appended[c.hist.base..] == s[..Received(c)]
    && (forall i :: 0 <= i < |c.slots| && c.slots[i].used ==> SlotMatches(s, c, i))
  }

  predicate SlotMatches(s: seq<U8>, c: Conn, i: nat)
    requires i < |c.slots|
  {
    0 <= SlotOff(c, i) && SlotStop(c, i) <= |s| && c.slots[i].payload == s[SlotOff(c, i)..SlotStop(c, i)]
  }

  /** A peer that sends one stream: payloads are slices of it and a FIN sits at its end. */
  predicate Honest(s: seq<U8>, c: Conn, seg: Segment) {
    var o := Off(c, seg.seqNumber);
    && (seg.payload != [] ==> 0 <= o && o + |seg.payload| <= |s| && seg.payload == s[o..o + |seg.payload|])
    && (seg.flags.fin ==> o + |seg.payload| == |s|)
  }

  /** No FIN has been consumed: offsets count bytes only. */
  predicate Counting(c: Conn) {
    Inv(c) && c.state != Reset && c.hist.irs.Some? && c.hist.fins == 0
  }

  // -------------------------------------------------------------- offsets are stable

  lemma OffStable(c: Conn, d: Conn, q: U32)
    requires d.recvNext == Wrap(c.recvNext + Position(d) - Position(c))
    requires -HALF <= Off(c, q) - Position(d) < HALF
    ensures Off(d, q) == Off(c, q)
  {
    DistanceShifts(q, c.recvNext, Position(d) - Position(c));
  }

  /**
   Within half the sequence space of the receive position, `Off` is the one offset whose sequence
   number, counted from the peer's SYN, is `q`.
   */
  lemma OffIsPlace(c: Conn, q: U32, o: int)
    requires c.hist.irs.Some? && AtPosition(c) && -HALF <= o - Position(c) < HALF
    ensures Off(c, q) == o <==> q == Wrap(c.hist.irs.value + 1 + o)
  {
    WrapTwice(c.hist.irs.value + 1 + Position(c), o - Position(c));
    DistanceIs(q, c.recvNext, o - Position(c));
  }

  lemma StopIsOff(c: Conn, q: U32, len: nat)
    requires -HALF <= Off(c, q) + len - Position(c) < HALF
    ensures Off(c, Wrap(q + len)) == Off(c, q) + len
  {
    DistanceShifts(q, c.recvNext, len);
  }

  // ----------------------------------------------------------------- one slot promoted

  /** What a promotion step keeps: the set of offsets held, and agreement with a stream. */
  ghost predicate SameBytes(s: seq<U8>, c: Conn, d: Conn) {
    && SlotsNear(d)
    && (forall x :: Covered(d, x) <==> Covered(c, x))
    && (Matches(s, c) ==> Matches(s, d))
  }

  /** Slots untouched by an advance keep their offsets. */
  lemma AdvanceKeepsOffsets(c: Conn, d: Conn)
    requires Counting(c) && SlotsNear(c) && Advanced(c, d)
    ensures forall i :: 0 <= i < |c.slots| && d.slots[i].used ==>
              d.slots[i] == c.slots[i] && SlotOff(d, i) == SlotOff(c, i)
    ensures SlotsNear(d)
  {
    forall i | 0 <= i < |c.slots| && d.slots[i].used
      ensures d.slots[i] == c.slots[i] && SlotOff(d, i) == SlotOff(c, i)
    {
      OffStable(c, d, c.slots[i].start);
    }
  }

  /** Position `Received` lies in the range placed at `o`, and the rest of the range is appended. */
  lemma DeliverOffsets(c: Conn, start: U32, payload: seq<U8>)
    requires Counting(c) && |payload| <= MAX_PAYLOAD_LEN
    requires Straddles(c, start, payload) && Deliver(c, start, payload).Some?
    requires Received(c) - WINDOW <= Off(c, start)
    ensures var d := Deliver(c, start, payload).value;
            var o := Off(c, start);
            && o <= Received(c) < o + |payload| == Received(d)
            && d.hist.appended == c.hist.appended + payload[Received(c) - o..]
  {
    OverlapFits(start, |payload|, c.recvNext);
    OverlapIsDistance(start, c.recvNext);
    StopIsOff(c, start, |payload|);
  }

  lemma AppendMatches(s: seq<U8>, before: seq<U8>, n: nat, o: nat, payload: seq<U8>)
    requires o <= n < o + |payload| <= |s|
    requires before == s[..n] && payload == s[o..o + |payload|]
    ensures before + payload[n - o..] == s[..o + |payload|]
  {
  }

  /** Dropping or delivering one slot changes neither the offsets held nor their bytes. */
  lemma SlotKeepsBytes(s: seq<U8>, c: Conn, i: nat)
    requires Counting(c) && SlotsNear(c)
    requires i < |c.slots| && Promotable(c, c.slots[i]) && PromoteSlot(c, i).Some?
    ensures var d := PromoteSlot(c, i).value; Counting(d) && SameBytes(s, c, d)
  {
    var d := PromoteSlot(c, i).value;
    SlotGone(c, i);
    forall x
      ensures Covered(d, x) <==> Covered(c, x)
    {
      SlotCovers(c, d, i, x);
    }
    if Matches(s, c) {
      SlotMatchesStep(s, c, d, i);
    }
  }

  /** Slot `i` is gone, the others are where they were, and its unseen bytes, if any, are delivered. */
  lemma SlotGone(c: Conn, i: nat)
    requires Counting(c) && SlotsNear(c)
    requires i < |c.slots| && Promotable(c, c.slots[i]) && PromoteSlot(c, i).Some?
    ensures var d := PromoteSlot(c, i).value;
            && Counting(d) && SlotsNear(d)
            && d.slots == c.slots[i := FREE_SLOT] && d.hist.base == c.hist.base
            && (forall k :: 0 <= k < |c.slots| && d.slots[k].used ==> SlotOff(d, k) == SlotOff(c, k))
            && if d.hist.appended == c.hist.appended then SlotStop(c, i) <= Received(c)
               else && SlotOff(c, i) <= Received(c) < SlotStop(c, i) == Received(d)
                    && d.hist.appended == c.hist.appended + c.slots[i].payload[Received(c) - SlotOff(c, i)..]
  {
    var d := PromoteSlot(c, i).value;
    SlotAdvances(c, i);
    assert Counting(d) by {
      AdvancedKeepsInv(c, d);
    }
    AdvanceKeepsOffsets(c, d);
    SlotBytesGo(c, i);
  }

  lemma SlotBytesGo(c: Conn, i: nat)
    requires Counting(c) && SlotsNear(c)
    requires i < |c.slots| && Promotable(c, c.slots[i]) && PromoteSlot(c, i).Some?
    ensures var d := PromoteSlot(c, i).value;
            if d.hist.appended == c.hist.appended then SlotStop(c, i) <= Received(c)
            else && SlotOff(c, i) <= Received(c) < SlotStop(c, i) == Received(d)
                 && d.hist.appended == c.hist.appended + c.slots[i].payload[Received(c) - SlotOff(c, i)..]
  {
    var s := c.slots[i];
    if SeqLe(SlotEnd(s), c.recvNext) {
      assert PromoteSlot(c, i).value.hist == c.hist;
      StopIsOff(c, s.start, |s.payload|);
    } else {
      assert PromoteSlot(c, i).value.hist == Deliver(c, s.start, s.payload).value.hist;
      DeliverOffsets(c, s.start, s.payload);
    }
  }

  /** `d` is `c` without slot `i`, whose offsets are now delivered. */
  lemma SlotCovers(c: Conn, d: Conn, i: nat, x: int)
    requires i < |c.slots| == |d.slots| && c.slots[i].used
    requires d.slots == c.slots[i := FREE_SLOT]
    requires forall k :: 0 <= k < |c.slots| && d.slots[k].used ==> SlotOff(d, k) == SlotOff(c, k)
    requires 0 < SlotOff(c, i)
    requires SlotStop(c, i) <= Received(c) == Received(d) || SlotOff(c, i) <= Received(c) < SlotStop(c, i) == Received(d)
    ensures Covered(d, x) <==> Covered(c, x)
  {
    if Covered(d, x) && !(0 <= x < Received(d)) {
      var k :| 0 <= k < |d.slots| && SlotHas(d, k, x);
      assert SlotHas(c, k, x);
    }
    if Covered(d, x) && Received(c) <= x < Received(d) {
      assert SlotHas(c, i, x);
    }
    if Covered(c, x) && !(0 <= x < Received(c)) {
      var k :| 0 <= k < |c.slots| && SlotHas(c, k, x);
      if k != i {
        assert SlotHas(d, k, x);
      }
    }
  }

  lemma SlotMatchesStep(s: seq<U8>, c: Conn, d: Conn, i: nat)
    requires Matches(s, c) && i < |c.slots| && c.slots[i].used
    requires d.slots == c.slots[i := FREE_SLOT] && d.hist.base == c.hist.base
    requires forall k :: 0 <= k < |c.slots| && d.slots[k].used ==> SlotOff(d, k) == SlotOff(c, k)
    requires d.hist.appended == c.hist.appended ||
             (&& SlotOff(c, i) <= Received(c) < SlotStop(c, i)
              && d.hist.appended == c.hist.appended + c.slots[i].payload[Received(c) - SlotOff(c, i)..])
    ensures Matches(s, d)
  {
    assert SlotMatches(s, c, i);
    if d.hist.appended != c.hist.appended {
      GrownMatches(s, c, d, SlotOff(c, i), c.slots[i].payload);
    }
    SlotsKeepMatching(s, c, d);
  }

  /** The delivered prefix stays a prefix of the stream when the rest of a matching range is appended. */
  lemma GrownMatches(s: seq<U8>, c: Conn, d: Conn, o: nat, payload: seq<U8>)
    requires Matches(s, c) && d.hist.base == c.hist.base
    requires o <= Received(c) < o + |payload| <= |s| && payload == s[o..o + |payload|]
    requires d.hist.appended == c.hist.appended + payload[Received(c) - o..]
    ensures Received(d) == o + |payload| && d.hist.appended[d.hist.base..] == s[..Received(d)]
  {
    AppendMatches(s, c.hist.appended[c.hist.base..], Received(c), o, payload);
    assert d.hist.appended[c.hist.base..] == c.hist.appended[c.hist.base..] + payload[Received(c) - o..];
  }

  /** Slots that stay, at the same offsets, keep matching. */
  lemma SlotsKeepMatching(s: seq<U8>, c: Conn, d: Conn)
    requires Matches(s, c) && |d.slots| == |c.slots|
    requires forall k :: 0 <= k < |c.slots| && d.slots[k].used ==>
               d.slots[k] == c.slots[k] && SlotOff(d, k) == SlotOff(c, k)
    ensures forall k :: 0 <= k < |d.slots| && d.slots[k].used ==> SlotMatches(s, d, k)
  {
    forall k | 0 <= k < |d.slots| && d.slots[k].used
      ensures SlotMatches(s, d, k)
    {
      assert SlotMatches(s, c, k);
    }
  }

  // ------------------------------------------------------------------ whole promotion

  lemma {:induction false} ScanKeepsBytes(s: seq<U8>, c: Conn, i: nat, progress: bool)
    requires Counting(c) && SlotsNear(c) && i <= |c.slots|
    ensures var d := ScanSlots(c, i, progress).c; Counting(d) && SameBytes(s, c, d)
    decreases |c.slots| - i
  {
    if i < |c.slots| && !Promotable(c, c.slots[i]) {
      ScanKeepsBytes(s, c, i + 1, progress);
    } else if i < |c.slots| && PromoteSlot(c, i).Some? {
      SlotKeepsBytes(s, c, i);
      ScanKeepsBytes(s, PromoteSlot(c, i).value, i + 1, true);
    }
  }

  lemma {:induction false} PromotionKeepsBytes(s: seq<U8>, c: Conn)
    requires Counting(c) && SlotsNear(c)
    ensures var (m, ok) := PromoteSlots(c);
            Counting(m) && SameBytes(s, c, m) && (ok ==> SlotsAhead(m))
    decreases UsedCount(c.slots)
  {
    var pass := ScanSlots(c, 0, false);
    ScanKeepsBytes(s, c, 0, false);
    if pass.ok && pass.progress {
      PromotionKeepsBytes(s, pass.c);
    } else {
      PromoteReachesFixpoint(c);
    }
  }

  // ------------------------------------------------------------------ a payload arrives

  /** In order: the payload's offsets join the delivered ones. */
  lemma DeliverCovers(s: seq<U8>, c: Conn, seg: Segment)
    requires Counting(c) && SlotsAhead(c) && InWindow(c, seg) && Delivered(c, seg)
    ensures var d := Deliver(c, seg.seqNumber, seg.payload).value;
            && Counting(d) && SlotsNear(d)
            && (forall x :: Covered(d, x) <==> Covered(c, x) || SegmentHas(c, seg, x))
            && (Matches(s, c) && Honest(s, c, seg) ==> Matches(s, d))
  {
    var d := Deliver(c, seg.seqNumber, seg.payload).value;
    DeliverAppends(c, seg);
    PrefixGrows(c, d, seg);
    if Matches(s, c) && Honest(s, c, seg) {
      PrefixMatches(s, c, d, seg);
    }
  }

  lemma DeliverAppends(c: Conn, seg: Segment)
    requires Counting(c) && SlotsAhead(c) && InWindow(c, seg) && Delivered(c, seg)
    ensures var d := Deliver(c, seg.seqNumber, seg.payload).value;
            Counting(d) && SlotsNear(d) && Appended(c, d, seg)
  {
    var d := Deliver(c, seg.seqNumber, seg.payload).value;
    DeliverAdvances(c, seg.seqNumber, seg.payload);
    AdvanceKeepsOffsets(c, d);
    DeliverOffsets(c, seg.seqNumber, seg.payload);
    assert Counting(d) by {
      AdvancedKeepsInv(c, d);
    }
  }

  /** `d` is `c` with the rest of the payload appended. */
  predicate Appended(c: Conn, d: Conn, seg: Segment) {
    var o := Off(c, seg.seqNumber);
    && d.slots == c.slots && d.hist.base == c.hist.base
    && (forall k :: 0 <= k < |c.slots| && c.slots[k].used ==> SlotOff(d, k) == SlotOff(c, k))
    && o <= Received(c) < o + |seg.payload| == Received(d)
    && d.hist.appended == c.hist.appended + seg.payload[Received(c) - o..]
  }

  lemma PrefixGrows(c: Conn, d: Conn, seg: Segment)
    requires Appended(c, d, seg)
    ensures forall x :: Covered(d, x) <==> Covered(c, x) || SegmentHas(c, seg, x)
  {
    forall x
      ensures Covered(d, x) <==> Covered(c, x) || SegmentHas(c, seg, x)
    {
      SameSlotsCover(c, d, x);
    }
  }

  lemma PrefixMatches(s: seq<U8>, c: Conn, d: Conn, seg: Segment)
    requires Appended(c, d, seg) && Matches(s, c) && Honest(s, c, seg)
    ensures Matches(s, d)
  {
    GrownMatches(s, c, d, Off(c, seg.seqNumber), seg.payload);
    SlotsKeepMatching(s, c, d);
  }

  /** With the same slots at the same offsets, only the delivered prefix matters. */
  lemma SameSlotsCover(c: Conn, d: Conn, x: int)
    requires d.slots == c.slots
    requires forall k :: 0 <= k < |c.slots| && c.slots[k].used ==> SlotOff(d, k) == SlotOff(c, k)
    ensures Covered(d, x) <==> 0 <= x < Received(d) || exists i :: 0 <= i < |c.slots| && SlotHas(c, i, x)
  {
    if i :| 0 <= i < |c.slots| && SlotHas(c, i, x) {
      assert SlotHas(d, i, x);
    }
    if i :| 0 <= i < |d.slots| && SlotHas(d, i, x) {
      assert SlotHas(c, i, x);
    }
  }

  /** After a gap: the payload's offsets are in a slot, old or new. */
  lemma BufferCovers(s: seq<U8>, c: Conn, seg: Segment)
    requires Counting(c) && SlotsAhead(c) && InWindow(c, seg) && Buffered(c, seg)
    ensures var d := BufferFuture(c, seg.seqNumber, seg.payload).value;
            && Counting(d) && SlotsAhead(d)
            && (forall x :: Covered(d, x) <==> Covered(c, x) || SegmentHas(c, seg, x))
            && (Matches(s, c) && Honest(s, c, seg) ==> Matches(s, d))
  {
    var d := BufferFuture(c, seg.seqNumber, seg.payload).value;
    BufferCases(c, seg.seqNumber, seg.payload);
    assert Counting(d) by {
      BufferKeepsInv(c, seg.seqNumber, seg.payload);
    }
    if AlreadyBuffered(c.slots, seg.seqNumber, FinSeq(seg)) {
      ContainedCovers(c, seg);
    } else {
      var i := FreeSlot(c.slots, 0);
      NewSlotCovers(s, c, d, seg, i);
    }
  }

  lemma ContainedCovers(c: Conn, seg: Segment)
    requires Counting(c) && SlotsAhead(c) && InWindow(c, seg)
    requires seg.payload != [] && SeqGt(seg.seqNumber, c.recvNext)
    requires AlreadyBuffered(c.slots, seg.seqNumber, FinSeq(seg))
    ensures forall x :: SegmentHas(c, seg, x) ==> Covered(c, x)
  {
    var i :| 0 <= i < |c.slots| && Contains(c.slots[i], seg.seqNumber, FinSeq(seg));
    ContainedInSlot(c, seg, i);
  }

  /** A payload contained in a slot, by the comparisons, is in the slot, by the offsets. */
  lemma ContainedInSlot(c: Conn, seg: Segment, i: nat)
    requires i < |c.slots| && |c.slots[i].payload| <= SLOT_DATA_LEN && Contains(c.slots[i], seg.seqNumber, FinSeq(seg))
    requires -WINDOW - 3 <= Distance(c.slots[i].start, c.recvNext) <= WINDOW
    requires -WINDOW - 3 <= Distance(seg.seqNumber, c.recvNext) <= WINDOW
    requires -WINDOW <= Distance(seg.seqNumber, c.recvNext) - Distance(c.slots[i].start, c.recvNext) <= WINDOW
    ensures forall x :: SegmentHas(c, seg, x) ==> SlotHas(c, i, x)
  {
    ContainmentIsInclusion(c.slots[i].start, |c.slots[i].payload|, seg.seqNumber, |seg.payload|, c.recvNext);
  }

  /** Of two ranges less than the window apart, and from `next`, the comparisons decide inclusion. */
  lemma ContainmentIsInclusion(a: U32, alen: nat, b: U32, blen: nat, next: U32)
    requires alen <= MAX_PAYLOAD_LEN && blen <= MAX_PAYLOAD_LEN
    requires -WINDOW - 3 <= Distance(a, next) <= WINDOW && -WINDOW - 3 <= Distance(b, next) <= WINDOW
    requires -WINDOW <= Distance(b, next) - Distance(a, next) <= WINDOW
    ensures SeqGe(b, a) && SeqLe(Wrap(b + blen), Wrap(a + alen)) <==>
              Distance(a, next) <= Distance(b, next) && Distance(b, next) + blen <= Distance(a, next) + alen
  {
    DistanceShifts(a, next, alen);
    DistanceShifts(b, next, blen);
    DistanceDiffers(b, a, next);
    DistanceDiffers(Wrap(b + blen), Wrap(a + alen), next);
  }

  lemma NewSlotCovers(s: seq<U8>, c: Conn, d: Conn, seg: Segment, i: nat)
    requires Counting(c) && SlotsAhead(c) && InWindow(c, seg)
    requires seg.payload != [] && SeqGt(seg.seqNumber, c.recvNext)
    requires i < |c.slots| && !c.slots[i].used
    requires d == c.(slots := c.slots[i := Slot(true, seg.seqNumber, seg.payload)], slotCount := c.slotCount + 1)
    ensures SlotsAhead(d)
    ensures forall x :: Covered(d, x) <==> Covered(c, x) || SegmentHas(c, seg, x)
    ensures Matches(s, c) && Honest(s, c, seg) ==> Matches(s, d)
  {
    assert forall k :: 0 <= k < |c.slots| && k != i ==> d.slots[k] == c.slots[k] && SlotOff(d, k) == SlotOff(c, k);
    assert SlotOff(d, i) == Off(c, seg.seqNumber) > 0;
    forall x
      ensures Covered(d, x) <==> Covered(c, x) || SegmentHas(c, seg, x)
    {
      if Covered(d, x) && !(0 <= x < Received(d)) {
        var k :| 0 <= k < |d.slots| && SlotHas(d, k, x);
        assert k != i ==> SlotHas(c, k, x);
      }
      if Covered(c, x) && !(0 <= x < Received(c)) {
        var k :| 0 <= k < |c.slots| && SlotHas(c, k, x);
        assert SlotHas(d, k, x);
      }
      if SegmentHas(c, seg, x) {
        assert SlotHas(d, i, x);
      }
    }
    if Matches(s, c) && Honest(s, c, seg) {
      forall k | 0 <= k < |d.slots| && d.slots[k].used
        ensures SlotMatches(s, d, k)
      {
        assert k != i ==> SlotMatches(s, c, k);
      }
    }
  }

  /**
   process_payload refines set union: on success the offsets held are those held before and
   the payload's own; every slot left is ahead. Against an honest peer the bytes stay those of
   the stream, even when the call fails for lack of room.
   */
  lemma PayloadRefinesUnion(s: seq<U8>, c: Conn, seg: Segment)
    requires Counting(c) && SlotsAhead(c) && InWindow(c, seg)
    ensures var (d, ok) := ProcessPayload(c, seg);
            && (ok ==> forall x :: Covered(d, x) <==> Covered(c, x) || SegmentHas(c, seg, x))
            && (ok && d.hist.fins == 0 ==> SlotsAhead(d))
            && (Matches(s, c) && Honest(s, c, seg) ==> Matches(s, d))
  {
    PayloadPaths(c, seg);
    var (d, ok) := ProcessPayload(c, seg);
    if Buffered(c, seg) {
      BufferCovers(s, c, seg);
    } else if Delivered(c, seg) {
      DeliverCovers(s, c, seg);
      PromotionKeepsBytes(s, Deliver(c, seg.seqNumber, seg.payload).value);
      var m := Promoted(c, seg).0;
      if ok {
        ConsumeKeepsBytes(s, m);
      }
    } else if ok {
      IgnoredCovers(c, seg);
    }
  }

  /** A payload that ends at or before the receive position brings nothing new. */
  lemma IgnoredCovers(c: Conn, seg: Segment)
    requires Counting(c) && InWindow(c, seg)
    requires seg.payload == [] || SeqLe(FinSeq(seg), c.recvNext)
    ensures forall x :: SegmentHas(c, seg, x) ==> Covered(c, x)
  {
    if seg.payload != [] {
      StopIsOff(c, seg.seqNumber, |seg.payload|);
    }
  }

  /** Consuming the FIN moves the position, not the offsets. */
  lemma ConsumeKeepsBytes(s: seq<U8>, c: Conn)
    requires Counting(c) && SlotsAhead(c)
    ensures var d := ConsumePendingFin(c);
            && (forall x :: Covered(d, x) <==> Covered(c, x))
            && (Matches(s, c) ==> Matches(s, d))
  {
    TakeFinKeepsBytes(s, c, ConsumePendingFin(c));
  }

  lemma TakeFinKeepsBytes(s: seq<U8>, c: Conn, d: Conn)
    requires Counting(c) && SlotsAhead(c)
    requires d.slots == c.slots && d.hist.appended == c.hist.appended && d.hist.base == c.hist.base
    requires d.recvNext == Wrap(c.recvNext + d.hist.fins - c.hist.fins) && 0 <= d.hist.fins <= 2
    ensures forall x :: Covered(d, x) <==> Covered(c, x)
    ensures Matches(s, c) ==> Matches(s, d)
  {
    forall k | 0 <= k < |c.slots| && c.slots[k].used
      ensures SlotOff(d, k) == SlotOff(c, k)
    {
      OffStable(c, d, c.slots[k].start);
    }
    forall x
      ensures Covered(d, x) <==> Covered(c, x)
    {
      SameSlotsCover(c, d, x);
    }
    if Matches(s, c) {
      SlotsKeepMatching(s, c, d);
    }
  }
}

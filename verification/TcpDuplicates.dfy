/** A segment that was processed once changes nothing when it is processed again. */
module TcpDuplicates {
  import opened Bytes
  import opened SequenceSpace
  import opened TcpSegment
  import opened TcpModel
  import opened TcpEvents
  import opened TcpInvariants
  import opened TcpRuns
  import opened TcpStates

  /** Between calls a pending FIN is never at the receive position. */
  predicate AtRest(c: Conn) {
    && (c.hist.irs.None? ==> !c.pendingFin)
    && (Receiving(c.state) && c.pendingFin ==> c.pendingFinSeq != c.recvNext)
  }

  /** The receive position is `k` past `q`. */
  predicate Past(q: U32, next: U32, k: int) {
    0 <= k <= READY_CAPACITY + 3 && next == Wrap(q + k)
  }

  lemma PastIsBehind(q: U32, next: U32, k: int)
    requires Past(q, next, k)
    ensures Distance(q, next) == -k && (q == next <==> k == 0)
  {
    DistanceShifts(q, q, k);
  }

  /** Where a delivered payload ends, counted back from where promotion stopped. */
  lemma PromotedPast(c: Conn, seg: Segment) returns (k: int)
    requires SlotsInv(c) && Delivered(c, seg)
    ensures Past(FinSeq(seg), Promoted(c, seg).0.recvNext, k) && k <= READY_CAPACITY
  {
    DeliverAdvances(c, seg.seqNumber, seg.payload);
    var d := Deliver(c, seg.seqNumber, seg.payload).value;
    PromoteReachesFixpoint(d);
    k := |Promoted(c, seg).0.ready| - |d.ready|;
  }

  lemma DeliveredPast(c: Conn, seg: Segment) returns (k: int)
    requires SlotsInv(c) && Delivered(c, seg) && ProcessPayload(c, seg).1
    ensures Past(FinSeq(seg), ProcessPayload(c, seg).0.recvNext, k) && k <= READY_CAPACITY + 1
  {
    k := PromotedPast(c, seg);
    PayloadPaths(c, seg);
    WrapTwice(FinSeq(seg) + k, 1);
    var m := Promoted(c, seg).0;
    if m.pendingFin && m.pendingFinSeq == m.recvNext {
      k := k + 1;
    }
  }

  /** An arriving FIN at or behind the position is taken or ignored; after that it is behind. */
  lemma FinPast(p: Conn, seg: Segment, k: int) returns (k': int)
    requires Past(FinSeq(seg), p.recvNext, k) && k <= READY_CAPACITY + 1
    ensures Past(FinSeq(seg), AfterPayload(p, seg).recvNext, k')
    ensures seg.flags.fin ==> k' > 0
  {
    AfterPayloadShape(p, seg);
    PastIsBehind(FinSeq(seg), p.recvNext, k);
    var f := AfterPayload(p, seg).hist.fins - p.hist.fins;
    WrapTwice(FinSeq(seg) + k, f);
    k' := k + f;
  }

  /** A FIN that is not at the position, with no pending FIN there either, moves nothing. */
  lemma NoFinTaken(p: Conn, seg: Segment)
    requires p.pendingFin ==> p.pendingFinSeq != p.recvNext
    requires seg.flags.fin ==> FinSeq(seg) != p.recvNext
    ensures AfterPayload(p, seg).recvNext == p.recvNext
    ensures seg.flags.fin && SeqGt(FinSeq(seg), p.recvNext) ==>
              AfterPayload(p, seg).pendingFin && !SeqLt(FinSeq(seg), AfterPayload(p, seg).pendingFinSeq)
  {
  }

  /** Processing the rest again changes nothing once the FIN is behind or pending. */
  lemma AfterPayloadTwice(p: Conn, seg: Segment)
    requires var d := AfterPayload(p, seg);
             seg.flags.fin ==>
               && FinSeq(seg) != d.recvNext
               && (SeqGt(FinSeq(seg), d.recvNext) ==> d.pendingFin && !SeqLt(FinSeq(seg), d.pendingFinSeq))
    ensures var d := AfterPayload(p, seg); AfterPayload(d, seg) == d
  {
    var d := AfterPayload(p, seg);
    assert ProcessFin(d, seg) == d;
    CloseTwice(ProcessFin(p, seg));
  }

  /** Consuming the pending FIN and closing our side are done once. */
  lemma CloseTwice(q: Conn)
    ensures var d := FinishClose(ConsumePendingFin(q)); FinishClose(ConsumePendingFin(d)) == d
  {
    var d := FinishClose(ConsumePendingFin(q));
    FinishCloseShape(ConsumePendingFin(q));
    assert ConsumePendingFin(d) == d;
  }

  /** Processing the segment changes nothing. */
  predicate Settles(d: Conn, seg: Segment) {
    SlotsFit(d.slots) && ProcessPayload(d, seg) == (d, true) && AfterPayload(d, seg) == d
  }

  lemma BufferedTwice(c: Conn, seg: Segment)
    requires Inv(c) && Buffered(c, seg)
    ensures var p := BufferFuture(c, seg.seqNumber, seg.payload).value;
            |seg.payload| <= SLOT_DATA_LEN && AlreadyBuffered(p.slots, seg.seqNumber, FinSeq(seg))
  {
    var p := BufferFuture(c, seg.seqNumber, seg.payload).value;
    if !AlreadyBuffered(c.slots, seg.seqNumber, FinSeq(seg)) {
      var i := FreeSlot(c.slots, 0);
      assert Contains(p.slots[i], seg.seqNumber, FinSeq(seg));
    }
  }

  /** The payload lies behind the position: only the FIN stage can act, and it does not. */
  lemma PastTwice(p: Conn, seg: Segment, k: int)
    requires Past(FinSeq(seg), p.recvNext, k) && k <= READY_CAPACITY + 1
    requires SlotsFit(p.slots)
    ensures Settles(AfterPayload(p, seg), seg)
  {
    var k' := FinPast(p, seg, k);
    PastIsBehind(FinSeq(seg), AfterPayload(p, seg).recvNext, k');
    AfterPayloadShape(p, seg);
    AfterPayloadTwice(p, seg);
  }

  /** Nothing moved the position: the payload goes the way it went, and finds itself there. */
  lemma UnmovedTwice(c: Conn, seg: Segment)
    requires Inv(c) && ProcessPayload(c, seg).1 && !Delivered(c, seg)
    requires c.pendingFin ==> c.pendingFinSeq != c.recvNext
    requires seg.flags.fin ==> FinSeq(seg) != c.recvNext
    ensures Settles(AfterPayload(ProcessPayload(c, seg).0, seg), seg)
  {
    var p := ProcessPayload(c, seg).0;
    PayloadPaths(c, seg);
    UnmovedFins(p, seg);
    AfterPayloadShape(p, seg);
    if Buffered(c, seg) {
      BufferedTwice(c, seg);
      BufferedAgain(AfterPayload(p, seg), seg);
    } else {
      IgnoredAgain(AfterPayload(p, seg), seg);
    }
  }

  lemma BufferedAgain(d: Conn, seg: Segment)
    requires SlotsFit(d.slots) && 0 < |seg.payload| <= SLOT_DATA_LEN && AlreadyBuffered(d.slots, seg.seqNumber, FinSeq(seg))
    requires SeqGt(seg.seqNumber, d.recvNext) && !SeqLe(FinSeq(seg), d.recvNext)
    ensures ProcessPayload(d, seg) == (d, true)
  {
  }

  lemma IgnoredAgain(d: Conn, seg: Segment)
    requires SlotsFit(d.slots) && (seg.payload == [] || SeqLe(FinSeq(seg), d.recvNext))
    ensures ProcessPayload(d, seg) == (d, true)
  {
  }

  lemma UnmovedFins(p: Conn, seg: Segment)
    requires p.pendingFin ==> p.pendingFinSeq != p.recvNext
    requires seg.flags.fin ==> FinSeq(seg) != p.recvNext
    ensures var d := AfterPayload(p, seg); d.recvNext == p.recvNext && AfterPayload(d, seg) == d
  {
    NoFinTaken(p, seg);
    AfterPayloadTwice(p, seg);
  }

  lemma ProcessedTwice(c: Conn, seg: Segment)
    requires Inv(c) && c.state != Reset && ProcessPayload(c, seg).1
    requires c.pendingFin ==> c.pendingFinSeq != c.recvNext
    ensures Settles(AfterPayload(ProcessPayload(c, seg).0, seg), seg)
  {
    if Delivered(c, seg) {
      DeliveredTwice(c, seg);
    } else if seg.flags.fin && FinSeq(seg) == c.recvNext {
      AtPositionTwice(c, seg);
    } else {
      UnmovedTwice(c, seg);
    }
  }

  lemma DeliveredTwice(c: Conn, seg: Segment)
    requires Inv(c) && c.state != Reset && ProcessPayload(c, seg).1 && Delivered(c, seg)
    ensures Settles(AfterPayload(ProcessPayload(c, seg).0, seg), seg)
  {
    var k := DeliveredPast(c, seg);
    assert SlotsFit(ProcessPayload(c, seg).0.slots) by {
      PayloadKeepsInv(c, seg);
    }
    PastTwice(ProcessPayload(c, seg).0, seg, k);
  }

  /** The segment ends at the position: its payload is old, and its FIN is taken. */
  lemma AtPositionTwice(c: Conn, seg: Segment)
    requires Inv(c) && ProcessPayload(c, seg).1 && !Delivered(c, seg) && FinSeq(seg) == c.recvNext
    ensures Settles(AfterPayload(ProcessPayload(c, seg).0, seg), seg)
  {
    PayloadPaths(c, seg);
    PastTwice(c, seg, 0);
  }

  lemma ReceiveTwice(c: Conn, seg: Segment)
    requires Inv(c) && Receiving(c.state) && AtRest(c) && Receive(c, seg).1 == 0
    ensures var d := Receive(c, seg).0; SlotsFit(d.slots) && Receive(d, seg) == (d, 0)
  {
    ProcessedTwice(c, seg);
  }

  /** An acknowledgment is not accepted twice. */
  lemma AckTwice(c: Conn, d: Conn, seg: Segment)
    requires d.sendUna == Acked(c, seg).sendUna && d.sendNext == c.sendNext && d.remoteWindow == seg.window
    ensures Acked(d, seg) == d
  {
    assert !SeqGt(seg.ackNumber, seg.ackNumber);
    if AckAccepted(c, seg) {
      assert d.sendUna == seg.ackNumber;
    } else {
      assert d.sendUna == c.sendUna;
    }
    assert !AckAccepted(d, seg);
  }

  /**
   Duplicate idempotence: in a connection at rest, a segment that returned 0 leaves the whole
   connection, history included, unchanged when it is fed again.
   */
  lemma FeedTwice(c: Conn, seg: Segment)
    requires Inv(c) && AtRest(c) && OnSegment(c, seg).1 == 0
    ensures var d := OnSegment(c, seg).0; SlotsFit(d.slots) && OnSegment(d, seg) == (d, 0)
  {
    if seg.flags.rst {
      ResetTwice(c, seg);
    } else if Receiving(c.state) {
      ReceivedTwice(c, seg);
    } else {
      AcknowledgedTwice(c, seg);
    }
  }

  lemma ResetTwice(c: Conn, seg: Segment)
    requires Addressed(c, seg) && seg.flags.rst && SlotsFit(c.slots)
    ensures var d := OnSegment(c, seg).0; SlotsFit(d.slots) && OnSegment(d, seg) == (d, 0)
  {
  }

  /** Outside the receiving states only the acknowledgment counts. */
  lemma AcknowledgedTwice(c: Conn, seg: Segment)
    requires SlotsFit(c.slots) && Addressed(c, seg) && !seg.flags.rst && !Receiving(c.state)
    requires OnSegment(c, seg).1 == 0
    ensures var d := OnSegment(c, seg).0; SlotsFit(d.slots) && OnSegment(d, seg) == (d, 0)
  {
    AckTwice(c, Acked(c, seg), seg);
  }

  lemma ReceivedTwice(c: Conn, seg: Segment)
    requires Inv(c) && AtRest(c) && OnSegment(c, seg).1 == 0
    requires Addressed(c, seg) && !seg.flags.rst && Receiving(c.state)
    ensures var d := OnSegment(c, seg).0; SlotsFit(d.slots) && OnSegment(d, seg) == (d, 0)
  {
    var a := Acked(c, seg);
    AckKeepsReceive(c, seg);
    ReceiveTwice(a, seg);
    ReceiveKeepsSend(a, seg);
    ReceiveStates(a, seg);
    AgainReceived(c, Receive(a, seg).0, seg);
  }

  /** A connection that received the segment, fed it again. */
  lemma AgainReceived(c: Conn, d: Conn, seg: Segment)
    requires SlotsFit(d.slots) && Receive(d, seg) == (d, 0) && SendKept(Acked(c, seg), d)
    requires Addressed(d, seg) && !seg.flags.rst && (Receiving(d.state) || d.state == TimeWait || d.state == Closed)
    ensures OnSegment(d, seg) == (d, 0)
  {
    AckTwice(c, d, seg);
  }

  // ------------------------------------------------------------------------ runs

  lemma ReceiveRests(c: Conn, seg: Segment)
    requires Inv(c) && Receiving(c.state) && Receive(c, seg).1 == 0
    ensures AtRest(Receive(c, seg).0)
  {
    ReceiveKeepsInv(c, seg);
    PayloadKeepsInv(c, seg);
    var p := ProcessPayload(c, seg).0;
    AfterPayloadShape(p, seg);
  }

  lemma StepRests(w: World, e: Event)
    requires Inv(w.c) && AtRest(w.c) && Patient(w, e) && !Next(w, e).overflow
    ensures AtRest(Next(w, e).c)
  {
    if !e.Arrive? {
      OtherEventsKeepReceive(w, e);
      StepFollowsEdges(w, e);
    } else if Addressed(w.c, e.seg) && !e.seg.flags.rst {
      AckKeepsReceive(w.c, e.seg);
      ArriveCases(w, e.seg);
      if Receiving(w.c.state) {
        ReceiveRests(Acked(w.c, e.seg), e.seg);
      }
    }
  }

  lemma {:induction false} RunRests(w: World, es: seq<Event>)
    requires Start(w) && PatientRun(w, es) && !Run(w, es).overflow
    ensures AtRest(Run(w, es).c)
  {
    if es != [] {
      RunRests(w, es[..|es| - 1]);
      StepRests(Run(w, es[..|es| - 1]), es[|es| - 1]);
    }
  }

  /** In every state reached without a -2, from any peer and at any distance, duplicates are harmless. */
  lemma DuplicatesAreHarmless(w: World, es: seq<Event>, seg: Segment)
    requires Start(w) && PatientRun(w, es) && !Run(w, es).overflow
    requires OnSegment(Run(w, es).c, seg).1 == 0
    ensures Run(w, es + [Arrive(seg)]) == Next(Run(w, es), Arrive(seg))
    ensures Run(w, es + [Arrive(seg), Arrive(seg)]).c == Run(w, es + [Arrive(seg)]).c
  {
    var one := es + [Arrive(seg)];
    var two := es + [Arrive(seg), Arrive(seg)];
    assert one[..|one| - 1] == es && two[..|two| - 1] == one;
    RunRests(w, es);
    FeedTwice(Run(w, es).c, seg);
  }
}
